/** The mutable service of internal/orchestrator/service.go; each method is one locked step. */
module ServiceObject {
  import opened Domain
  import opened Scheduler
  import opened SchedulerObject
  import opened Service
  import opened ServiceSafety
  import Snapshots

  class OrchestratorService {
    const cfg: Config
    const deps: Deps
    const state: SchedulerState

    var pollTimer: Option<nat>
    var cycleTimer: Option<nat>
    var retryTimers: map<string, Scheduled>
    var closed: bool

    // The timer factory: pending timers and the number of the next one.
    var timers: map<nat, Timer>
    var issued: nat

    ghost predicate Valid()
      reads this, state
    {
      state.cfg == cfg && WellOrdered(deps)
    }

    ghost function Value(): ServiceState
      reads this, state
    {
      ServiceState(state.Value(), closed, pollTimer, cycleTimer, retryTimers, timers, issued)
    }

    constructor (cfg: Config, deps: Deps, now: int)
      requires WellOrdered(deps)
      ensures Valid() && fresh(state) && this.cfg == cfg && this.deps == deps
      ensures Value() == NewService(now) && ServiceInv(cfg, Value())
    {
      this.cfg, this.deps := cfg, deps;
      state := new SchedulerState(cfg);
      pollTimer, cycleTimer, retryTimers, closed := None, None, map[], false;
      timers, issued := map[], 0;
      new;
      SchedulePoll(now, 0);
      NewServiceSound(cfg, now);
    }

    method AfterFunc(now: int, delay: int, call: Callback) returns (timer: nat)
      modifies this`timers, this`issued
      ensures Value() == Service.AfterFunc(old(Value()), now, delay, call) && timer == old(issued)
    {
      timer := issued;
      timers := timers[timer := Timer(call, now, now + delay, false)];
      issued := issued + 1;
    }

    method StopTimer(timer: nat)
      modifies this`timers
      ensures Value() == Stop(old(Value()), timer)
    {
      if timer in timers && !timers[timer].expired {
        timers := timers - {timer};
      }
    }

    method SchedulePoll(now: int, delay: int)
      modifies this, state
      ensures Value() == Service.SchedulePoll(old(Value()), now, delay)
    {
      if closed {
        return;
      }
      if pollTimer.Some? {
        StopTimer(pollTimer.value);
      }
      var nonce := state.SchedulePollAt(now + delay);
      var timer := AfterFunc(now, delay, Tick(nonce));
      pollTimer := Some(timer);
    }

    method RequestRefresh(now: int) returns (coalesced: bool)
      requires Valid()
      modifies this, state
      ensures Valid() && (Value(), coalesced) == Refresh(old(Value()), now)
      ensures old(ServiceInv(cfg, Value())) ==> ServiceInv(cfg, Value())
    {
      ghost var before := Value();
      coalesced := state.RequestRefresh(now);
      if !coalesced {
        SchedulePoll(now, 0);
      }
      if ServiceInv(cfg, before) { RefreshSound(cfg, before, now); }
    }

    method HandlePollTick(now: int, nonce: nat)
      requires Valid()
      modifies this, state
      ensures Valid() && Value() == Service.HandlePollTick(cfg, old(Value()), now, nonce)
    {
      if closed {
        return;
      }
      var begun := state.BeginPoll(nonce);
      if !begun {
        return;
      }
      if cycleTimer.Some? {
        StopTimer(cycleTimer.value);
      }
      var timer := AfterFunc(now, cfg.transitionDelay, Cycle(nonce));
      cycleTimer := Some(timer);
    }

    /** The first loop of syncRetryTimersLocked: stop the timers of retries no longer queued. */
    method DropStaleTimers(known: seq<string>)
      requires forall id :: id in known ==> id in retryTimers
      requires forall i, j :: 0 <= i < j < |known| ==> known[i] != known[j]
      modifies this`retryTimers, this`timers
      ensures Value() == DropStale(old(Value()), known)
    {
      for i := 0 to |known|
        invariant forall id :: id in known[i..] ==> id in retryTimers
        invariant DropStale(Value(), known[i..]) == DropStale(old(Value()), known)
      {
        var id := known[i];
        assert known[i..][0] == id && known[i..][1..] == known[i + 1..];
        var scheduled := retryTimers[id];
        if !(id in state.retrying && state.retrying[id].nonce == scheduled.nonce) {
          StopTimer(scheduled.timer);
          retryTimers := retryTimers - {id};
        }
      }
    }

    method ArmTimer(now: int, id: string)
      requires id in state.retrying
      modifies this`retryTimers, this`timers, this`issued
      ensures Value() == ArmOne(old(Value()), now, id)
    {
      var entry := state.retrying[id];
      if id in retryTimers && retryTimers[id].nonce == entry.nonce {
        return;
      }
      var delay := entry.dueAt - now;
      if delay < 0 {
        delay := 0;
      }
      var timer := AfterFunc(now, delay, RetryTick(id, entry.nonce));
      retryTimers := retryTimers[id := Scheduled(entry.nonce, timer)];
    }

    /** Its second loop: start a timer for every queued retry that has none. */
    method ArmMissingTimers(now: int, queued: seq<string>)
      requires forall id :: id in queued ==> id in state.retrying
      modifies this`retryTimers, this`timers, this`issued
      ensures Value() == ArmMissing(old(Value()), now, queued)
    {
      for i := 0 to |queued|
        invariant ArmMissing(Value(), now, queued[i..]) == ArmMissing(old(Value()), now, queued)
      {
        assert queued[i] in queued;
        assert queued[i..][0] == queued[i] && queued[i..][1..] == queued[i + 1..];
        ArmTimer(now, queued[i]);
      }
    }

    method SyncRetryTimersLocked(now: int)
      requires Valid()
      modifies this, state`calls
      ensures Valid() && Value() == SyncRetryTimers(deps, old(Value()), now)
    {
      var known := deps.order(state.calls, retryTimers.Keys);
      assert Lists(known, retryTimers.Keys);
      var queued := deps.order(state.calls + 1, state.retrying.Keys);
      assert Lists(queued, state.retrying.Keys);
      state.calls := state.calls + 2;
      ghost var counted := Value();
      DropStaleKeepsState(counted, known);
      DropStaleTimers(known);
      ArmMissingTimers(now, queued);
    }

    method ReconcileAndDispatch(now: int)
      requires Valid()
      modifies state
      ensures Valid() && state.Value() == CycleState(cfg, deps, old(state.Value()), now)
    {
      state.ReconcileStalled(deps, now);
      state.ReconcileRunning(deps);
      if deps.list.Some? {
        var candidates := deps.list.value(state.calls);
        state.calls := state.calls + 1;
        if candidates.Ok? {
          state.ProcessCandidates(deps, now, candidates.value);
        }
      }
    }

    method HandlePollCycle(now: int, nonce: nat)
      requires Valid()
      modifies this, state
      ensures Valid() && Value() == Service.HandlePollCycle(cfg, deps, old(Value()), now, nonce)
    {
      if closed || !state.checking || nonce != state.pollNonce {
        return;
      }
      ReconcileAndDispatch(now);
      SyncRetryTimersLocked(now);
      state.FinishPoll(now);
      SchedulePoll(now, cfg.interval);
    }

    method HandleRetryTick(now: int, id: string, nonce: nat)
      requires Valid()
      modifies this, state
      ensures Valid() && Value() == Service.HandleRetryTick(cfg, deps, old(Value()), now, id, nonce)
    {
      if closed {
        return;
      }
      if id in retryTimers && retryTimers[id].nonce == nonce {
        retryTimers := retryTimers - {id};
      }
      state.HandleDueRetry(deps, now, id, nonce);
      SyncRetryTimersLocked(now);
    }

    method ApplyRunEvent(now: int, event: RunEvent)
      requires Valid()
      modifies this, state
      ensures Valid() && Value() == ApplyEvent(cfg, deps, old(Value()), now, event)
    {
      state.ApplyRunEvent(now, event);
      SyncRetryTimersLocked(now);
    }

    method StopRetryTimers(ids: seq<string>)
      requires forall id :: id in ids ==> id in retryTimers
      requires forall i, j :: 0 <= i < j < |ids| ==> ids[i] != ids[j]
      modifies this`retryTimers, this`timers
      ensures Value() == StopEach(old(Value()), ids)
    {
      for i := 0 to |ids|
        invariant forall id :: id in ids[i..] ==> id in retryTimers
        invariant StopEach(Value(), ids[i..]) == StopEach(old(Value()), ids)
      {
        var id := ids[i];
        assert ids[i..][0] == id && ids[i..][1..] == ids[i + 1..];
        StopTimer(retryTimers[id].timer);
        retryTimers := retryTimers - {id};
      }
    }

    method Close()
      requires Valid()
      modifies this, state
      ensures Valid() && Value() == Service.Close(deps, old(Value()))
    {
      closed := true;
      var ids := deps.order(state.calls, retryTimers.Keys);
      assert Lists(ids, retryTimers.Keys);
      if pollTimer.Some? {
        StopTimer(pollTimer.value);
      }
      if cycleTimer.Some? {
        StopTimer(cycleTimer.value);
      }
      state.calls := state.calls + 1;
      StopRetryTimers(ids);
    }

    /** A launched callback gets the mutex. */
    method Deliver(timer: nat, now: int)
      requires Valid()
      modifies this, state
      ensures Valid() && Value() == Step(cfg, deps, old(Value()), Input.Deliver(timer, now))
    {
      if timer !in timers || !timers[timer].expired {
        return;
      }
      var call := timers[timer].call;
      timers := timers - {timer};
      match call {
        case Tick(nonce) => HandlePollTick(now, nonce);
        case Cycle(nonce) => HandlePollCycle(now, nonce);
        case RetryTick(id, nonce) => HandleRetryTick(now, id, nonce);
      }
    }

    /** Any run of the service object, step by step, is a run of the model, and so keeps its invariant. */
    method Drive(inputs: seq<Input>)
      requires Valid() && Environment(deps) && ServiceInv(cfg, Value())
      modifies this, state
      ensures Valid() && Value() == RunFrom(cfg, deps, old(Value()), inputs) && ServiceInv(cfg, Value())
    {
      for i := 0 to |inputs|
        invariant Valid() && ServiceInv(cfg, Value())
        invariant RunFrom(cfg, deps, Value(), inputs[i..]) == RunFrom(cfg, deps, old(Value()), inputs)
      {
        ghost var before := Value();
        assert inputs[i..][0] == inputs[i] && inputs[i..][1..] == inputs[i + 1..];
        StepSound(cfg, deps, before, inputs[i]);
        match inputs[i] {
          case Expire(t) =>
            if t in timers {
              timers := timers[t := timers[t].(expired := true)];
            }
          case Deliver(t, now) => Deliver(t, now);
          case Event(event, now) => ApplyRunEvent(now, event);
          case Ask(now) => var _ := RequestRefresh(now);
          case CloseService => Close();
        }
        assert Value() == Step(cfg, deps, before, inputs[i]);
      }
    }
  }
}
