/** What holds over every run of the service, in any interleaving of timers, events and requests. */
module Runs {
  import opened Domain
  import opened Scheduler
  import opened Lifecycle
  import opened Safety
  import opened Service
  import opened ServiceSafety

  /** The service after `inputs`, started at time `start`. */
  ghost function After(cfg: Config, deps: Deps, start: int, inputs: seq<Input>): ServiceState
    requires WellOrdered(deps)
  {
    RunFrom(cfg, deps, NewService(start), inputs)
  }

  lemma AfterSound(cfg: Config, deps: Deps, start: int, inputs: seq<Input>)
    requires Environment(deps)
    ensures ServiceInv(cfg, After(cfg, deps, start, inputs))
    ensures forall id :: !PhaseOf(After(cfg, deps, start, inputs).state.log, id).Bad?
  {
    NewServiceSound(cfg, start);
    RunSound(cfg, deps, NewService(start), inputs);
    var s := After(cfg, deps, start, inputs).state;
    forall id ensures !PhaseOf(s.log, id).Bad? { assert Sound(s, id); }
  }

  /** Two successful starts of one item always have it leaving `running` in between. */
  lemma NoDoubleStart(cfg: Config, deps: Deps, start: int, inputs: seq<Input>, i: nat, j: nat, id: string)
    requires Environment(deps)
    requires i < j < |After(cfg, deps, start, inputs).state.log|
    requires IsStart(After(cfg, deps, start, inputs).state.log[i], id)
    requires IsStart(After(cfg, deps, start, inputs).state.log[j], id)
    ensures exists k :: i < k < j && IsLeave(After(cfg, deps, start, inputs).state.log[k], id)
  {
    AfterSound(cfg, deps, start, inputs);
    StartsAreSeparated(After(cfg, deps, start, inputs).state.log, i, j, id);
  }

  /** No claim leaks, no running item is unclaimed or queued, and no run exceeds the global limit. */
  lemma MapsAgree(cfg: Config, deps: Deps, start: int, inputs: seq<Input>)
    requires Environment(deps)
    ensures var s := After(cfg, deps, start, inputs).state;
            && s.running.Keys <= s.claimed.Keys <= s.running.Keys + s.retrying.Keys
            && s.running.Keys !! s.retrying.Keys
            && (forall id :: id in s.claimed ==> s.claimed[id].itemId == id)
            && (forall id :: id in s.running ==> s.running[id].item.id == id)
            && (forall id :: id in s.retrying ==> s.retrying[id].itemId == id)
            && (cfg.maxConcurrent > 0 ==> |s.running| <= cfg.maxConcurrent)
  {
    AfterSound(cfg, deps, start, inputs);
    var s := After(cfg, deps, start, inputs).state;
    forall id
      ensures id in s.running ==> id in s.claimed && id !in s.retrying && s.running[id].item.id == id
      ensures id in s.claimed ==> (id in s.running || id in s.retrying) && s.claimed[id].itemId == id
      ensures id in s.retrying ==> s.retrying[id].itemId == id
    {
      assert Sound(s, id);
    }
  }

  /** An item is running exactly when its last start has not been followed by a departure. */
  lemma RunningIsHistory(cfg: Config, deps: Deps, start: int, inputs: seq<Input>, id: string)
    requires Environment(deps)
    ensures var s := After(cfg, deps, start, inputs).state;
            id in s.running <==> exists i :: 0 <= i < |s.log| && LastStart(s.log, i, id)
  {
    AfterSound(cfg, deps, start, inputs);
    var s := After(cfg, deps, start, inputs).state;
    assert Sound(s, id);
    if id in s.running {
      var i := StartBehindRunning(s.log, id);
    }
    if i :| 0 <= i < |s.log| && LastStart(s.log, i, id) {
      RunningUntilLeave(s.log, i, id);
    }
  }

  ghost predicate LastStart(log: seq<Action>, i: nat, id: string)
    requires i < |log|
  {
    IsStart(log[i], id) && forall k :: i < k < |log| ==> !IsLeave(log[k], id)
  }

  lemma {:induction false} StartBehindRunning(log: seq<Action>, id: string) returns (i: nat)
    requires PhaseOf(log, id).Running?
    ensures i < |log| && LastStart(log, i, id)
    decreases |log|
  {
    var last := log[|log| - 1];
    if IsStart(last, id) {
      i := |log| - 1;
    } else {
      i := StartBehindRunning(log[..|log| - 1], id);
    }
  }

  /**
   While open, retry timers and queued retries agree, and each queued retry has exactly one live callback, due
   exactly when the retry is, or when it was armed if that is later.
   */
  lemma RetryTimersAgree(cfg: Config, deps: Deps, start: int, inputs: seq<Input>)
    requires Environment(deps) && !After(cfg, deps, start, inputs).closed
    ensures var sv := After(cfg, deps, start, inputs);
            && sv.retryTimers.Keys == sv.state.retrying.Keys
            && (forall id :: id in sv.state.retrying ==>
                  sv.retryTimers[id].nonce == sv.state.retrying[id].nonce <= sv.state.retryNonce)
            && (forall a, b :: a in sv.state.retrying && b in sv.state.retrying && a != b ==>
                  sv.state.retrying[a].nonce != sv.state.retrying[b].nonce)
            && (forall id :: id in sv.state.retrying ==>
                  CallbacksFor(sv, RetryTick(id, sv.state.retrying[id].nonce)) == {sv.retryTimers[id].timer}
                  && var timer := sv.timers[sv.retryTimers[id].timer];
                     timer.due == Later(timer.armed, sv.state.retrying[id].dueAt))
  {
    AfterSound(cfg, deps, start, inputs);
    var sv := After(cfg, deps, start, inputs);
    NoncesBounded(cfg, sv.state);
    assert sv.retryTimers.Keys == sv.state.retrying.Keys;
    forall id | id in sv.state.retrying
      ensures CallbacksFor(sv, RetryTick(id, sv.state.retrying[id].nonce)) == {sv.retryTimers[id].timer}
    {
      assert id in sv.retryTimers;
    }
  }

  /** The pending timers, expired or not, that carry a callback. */
  function CallbacksFor(sv: ServiceState, call: Callback): set<nat> {
    set t | t in sv.timers && sv.timers[t].call == call
  }

  /** No retry nonce is ever taken twice, by the same or by another item, even when Stop comes too late. */
  lemma NonceTakenOnce(cfg: Config, deps: Deps, start: int, inputs: seq<Input>, i: nat, j: nat)
    requires Environment(deps)
    requires i < j < |After(cfg, deps, start, inputs).state.log|
    requires var log := After(cfg, deps, start, inputs).state.log; log[i].Consumed? && log[j].Consumed?
    ensures After(cfg, deps, start, inputs).state.log[i].nonce != After(cfg, deps, start, inputs).state.log[j].nonce
  {
    AfterSound(cfg, deps, start, inputs);
    ConsumedOnce(After(cfg, deps, start, inputs).state.log, i, j);
  }

  /** While an item keeps its claim, its queued attempts strictly rise until a run completes or it is released. */
  lemma AttemptsRiseOverRuns(
    cfg: Config, deps: Deps, start: int, inputs: seq<Input>, i: nat, j: nat, id: string)
    requires Environment(deps)
    requires var log := After(cfg, deps, start, inputs).state.log;
             && i < j < |log| && log[i].Queued? && log[j].Queued? && log[i].id == log[j].id == id
             && HasClaim(PhaseOf(log[..i + 1], id))
             && forall k :: i < k <= j ==> !Resets(log[k], id)
    ensures var log := After(cfg, deps, start, inputs).state.log; log[i].attempt < log[j].attempt
  {
    AfterSound(cfg, deps, start, inputs);
    var log := After(cfg, deps, start, inputs).state.log;
    QueuedAttemptsPositive(log, i, id);
    AttemptsRise(log, i, j, id);
  }

  lemma {:induction false} PhaseAttemptsNatural(log: seq<Action>, id: string)
    ensures AttemptOf(PhaseOf(log, id)) >= 0
    decreases |log|
  {
    if log != [] {
      PhaseAttemptsNatural(log[..|log| - 1], id);
    }
  }

  lemma QueuedAttemptsPositive(log: seq<Action>, i: nat, id: string)
    requires i < |log| && log[i].Queued? && log[i].id == id && !PhaseOf(log, id).Bad?
    ensures log[i].attempt >= 1
  {
    assert log[..i + 1][..i] == log[..i];
    if PhaseOf(log[..i + 1], id).Bad? {
      BadForever(log, i + 1, id);
    }
    PhaseAttemptsNatural(log[..i], id);
  }

  // ----- the poll loop -----

  function CurrentPolls(sv: ServiceState): set<nat> {
    set t | t in sv.timers && PollNonceOf(sv.timers[t].call) == Some(sv.state.pollNonce)
  }

  /** While open exactly one pending callback carries the current poll nonce: a tick due at nextPollAt, or a cycle. */
  lemma OnePollPending(cfg: Config, deps: Deps, start: int, inputs: seq<Input>)
    requires Environment(deps) && !After(cfg, deps, start, inputs).closed
    ensures var sv := After(cfg, deps, start, inputs);
            exists t :: CurrentPolls(sv) == {t} && t in sv.timers
              && if sv.state.checking
                 then sv.timers[t].call == Cycle(sv.state.pollNonce) && sv.state.nextPollAt.None?
                 else sv.timers[t].call == Tick(sv.state.pollNonce) && sv.state.nextPollAt == Some(sv.timers[t].due)
  {
    AfterSound(cfg, deps, start, inputs);
    var sv := After(cfg, deps, start, inputs);
    var slot := if sv.state.checking then sv.cycleTimer else sv.pollTimer;
    assert CurrentPolls(sv) == {slot.value};
  }

  /** Behind every refresh, coalesced or not, is a cycle under way or a tick that is already due. */
  lemma RefreshIsServed(cfg: Config, sv: ServiceState, now: int)
    requires ServiceInv(cfg, sv) && !sv.closed
    ensures var (tv, coalesced) := Refresh(sv, now);
            exists t :: t in tv.timers
              && (tv.timers[t].call == Cycle(tv.state.pollNonce)
                  || (tv.timers[t].call == Tick(tv.state.pollNonce) && tv.timers[t].due <= now))
    ensures Refresh(sv, now).1 <==> sv.state.checking || sv.timers[sv.pollTimer.value].due <= now
  {
    RefreshSound(cfg, sv, now);
    var (tv, coalesced) := Refresh(sv, now);
    if coalesced {
      var t := if sv.state.checking then sv.cycleTimer.value else sv.pollTimer.value;
      assert t in tv.timers;
    } else {
      assert tv.pollTimer.value in tv.timers;
      assert tv.timers[tv.pollTimer.value].due == now;
    }
  }

  /** Delivering the current tick opens a cycle, due after the transition delay. */
  lemma TickAdvances(cfg: Config, deps: Deps, sv: ServiceState, now: int, t: nat)
    requires ServiceInv(cfg, sv) && WellOrdered(deps) && !sv.closed && !sv.state.checking
    requires t in CurrentPolls(sv) && sv.timers[t].expired
    ensures var tv := Step(cfg, deps, sv, Deliver(t, now));
            && tv.state.checking && !tv.closed && tv.state.nextPollAt.None? && tv.cycleTimer.Some?
            && tv.cycleTimer.value in tv.timers
            && tv.timers[tv.cycleTimer.value]
               == Timer(Cycle(sv.state.pollNonce), now, now + cfg.transitionDelay, false)
  {
    CurrentPollTaken(sv, t);
  }

  /** Delivering the current cycle schedules the next tick one interval on, under a new nonce. */
  lemma CycleAdvances(cfg: Config, deps: Deps, sv: ServiceState, now: int, t: nat)
    requires ServiceInv(cfg, sv) && Environment(deps) && !sv.closed && sv.state.checking
    requires t in CurrentPolls(sv) && sv.timers[t].expired
    ensures var tv := Step(cfg, deps, sv, Deliver(t, now));
            && !tv.state.checking && !tv.closed && tv.state.nextPollAt == Some(now + cfg.interval)
            && tv.state.pollNonce > sv.state.pollNonce
  {
    CurrentPollTaken(sv, t);
    CycleStateSound(cfg, deps, sv.state, now);
    SyncKeeps(deps, sv.(timers := sv.timers - {t}, state := CycleState(cfg, deps, sv.state, now)), now);
  }

  // ----- after close -----

  predicate IsCall(action: Action) {
    action.Started? || action.StopCalled?
  }

  /** The startRun and stopRun calls of a history. */
  function Calls(log: seq<Action>): seq<Action> {
    if log == [] then []
    else Calls(log[..|log| - 1]) + (if IsCall(log[|log| - 1]) then [log[|log| - 1]] else [])
  }

  lemma CallsSnoc(log: seq<Action>, action: Action)
    ensures Calls(log + [action]) == Calls(log) + (if IsCall(action) then [action] else [])
  {
    assert (log + [action])[..|log|] == log;
  }

  lemma QueueQuiet(
    s: State, id: string, identifier: string, attempt: int, dueAt: int, cause: Cause, host: string, path: string)
    ensures Calls(QueueRetry(s, id, identifier, attempt, dueAt, cause, host, path).log) == Calls(s.log)
  {
    CallsSnoc(s.log, Queued(id, attempt, s.retryNonce + 1, cause));
  }

  lemma ConcludeQuiet(cfg: Config, s: State, now: int, event: RunEvent, run: Run)
    requires event.itemId in s.running
    ensures Calls(Conclude(cfg, s, now, event, run).log) == Calls(s.log)
    ensures Conclude(cfg, s, now, event, run).running.Keys <= s.running.Keys
  {
    var gone := s.(running := s.running - {event.itemId});
    var n := NextFailureAttempt(run.attempt);
    QueueQuiet(gone, run.item.id, run.item.identifier, 1, now + 1_000_000_000, Completed, run.workerHost,
               run.workspacePath);
    QueueQuiet(gone, run.item.id, run.item.identifier, n,
               now + Scheduler.Backoff.FailureRetryDelay(n, cfg.maxRetryBackoff),
               WorkerFailed(event.error.GetOr(event.message)), run.workerHost, run.workspacePath);
  }

  lemma ApplyRunEventQuiet(cfg: Config, s: State, now: int, event: RunEvent)
    ensures Calls(ApplyRunEvent(cfg, s, now, event).log) == Calls(s.log)
    ensures ApplyRunEvent(cfg, s, now, event).running.Keys <= s.running.Keys
  {
    if event.itemId in s.running {
      CallsSnoc(s.log, Reported(event.itemId, event.totals));
      ConcludeQuiet(cfg, Account(s, event), now, event, Stamp(s.running[event.itemId], event));
    }
  }

  lemma ClosedStepQuiet(cfg: Config, deps: Deps, sv: ServiceState, input: Input)
    requires sv.closed && WellOrdered(deps)
    ensures var tv := Step(cfg, deps, sv, input);
            tv.closed && Calls(tv.state.log) == Calls(sv.state.log) && tv.state.running.Keys <= sv.state.running.Keys
  {
    match input
    case Event(event, now) =>
      ApplyRunEventQuiet(cfg, sv.state, now, event);
      SyncKeeps(deps, sv.(state := ApplyRunEvent(cfg, sv.state, now, event)), now);
    case CloseService => CloseKeeps(deps, sv);
    case _ =>
  }

  /** After close nothing is started or stopped and no item enters `running`, whatever still arrives. */
  lemma {:induction false} QuietAfterClose(cfg: Config, deps: Deps, sv: ServiceState, inputs: seq<Input>)
    requires sv.closed && WellOrdered(deps)
    ensures var tv := RunFrom(cfg, deps, sv, inputs);
            tv.closed && Calls(tv.state.log) == Calls(sv.state.log) && tv.state.running.Keys <= sv.state.running.Keys
    decreases |inputs|
  {
    if inputs != [] {
      ClosedStepQuiet(cfg, deps, sv, inputs[0]);
      QuietAfterClose(cfg, deps, Step(cfg, deps, sv, inputs[0]), inputs[1..]);
    }
  }
}
