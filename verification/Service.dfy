/**
 The service of internal/orchestrator/service.go as a function of its state: one step per
 method run under the mutex, and the timers that call back into it.

 A timer that has expired has already launched its callback: the callback still waits for
 the mutex, and Stop no longer prevents it. That is why callbacks carry nonces.
 */
module Service {
  import opened Domain
  import opened Scheduler

  datatype Callback = Tick(nonce: nat) | Cycle(nonce: nat) | RetryTick(id: string, nonce: nat)

  /** A callback due some time after the timer was armed. */
  datatype Timer = Timer(call: Callback, armed: int, due: int, expired: bool)

  datatype Scheduled = Scheduled(nonce: nat, timer: nat)

  datatype ServiceState = ServiceState(
    state: State, closed: bool, pollTimer: Option<nat>, cycleTimer: Option<nat>,
    retryTimers: map<string, Scheduled>, timers: map<nat, Timer>, issued: nat)

  /** timers.AfterFunc: the new timer's number is the old value of `issued`. */
  function AfterFunc(sv: ServiceState, now: int, delay: int, call: Callback): ServiceState {
    sv.(timers := sv.timers[sv.issued := Timer(call, now, now + delay, false)], issued := sv.issued + 1)
  }

  /** timer.Stop(): too late once the timer has expired. */
  function Stop(sv: ServiceState, timer: nat): ServiceState {
    if timer in sv.timers && !sv.timers[timer].expired then sv.(timers := sv.timers - {timer}) else sv
  }

  function StopSome(sv: ServiceState, timer: Option<nat>): ServiceState {
    if timer.Some? then Stop(sv, timer.value) else sv
  }

  function SchedulePoll(sv: ServiceState, now: int, delay: int): ServiceState {
    if sv.closed then sv
    else
      var stopped := StopSome(sv, sv.pollTimer);
      var state := SchedulePollAt(stopped.state, now + delay);
      AfterFunc(stopped.(state := state, pollTimer := Some(stopped.issued)), now, delay, Tick(state.pollNonce))
  }

  function NewService(now: int): ServiceState {
    SchedulePoll(ServiceState(EMPTY, false, None, None, map[], map[], 0), now, 0)
  }

  /** The refresh request; the result says whether it was coalesced. */
  function Refresh(sv: ServiceState, now: int): (ServiceState, bool) {
    var (state, coalesced) := RequestRefresh(sv.state, now);
    var asked := sv.(state := state);
    (if coalesced then asked else SchedulePoll(asked, now, 0), coalesced)
  }

  function StartCycle(cfg: Config, sv: ServiceState, now: int, nonce: nat): ServiceState {
    var stopped := StopSome(sv, sv.cycleTimer);
    AfterFunc(stopped.(cycleTimer := Some(stopped.issued)), now, cfg.transitionDelay, Cycle(nonce))
  }

  function HandlePollTick(cfg: Config, sv: ServiceState, now: int, nonce: nat): ServiceState {
    if sv.closed || !BeginPoll(sv.state, nonce).1 then sv
    else StartCycle(cfg, sv.(state := BeginPoll(sv.state, nonce).0), now, nonce)
  }

  function DropStale(sv: ServiceState, ids: seq<string>): ServiceState
    requires forall id :: id in ids ==> id in sv.retryTimers
    requires forall i, j :: 0 <= i < j < |ids| ==> ids[i] != ids[j]
    decreases |ids|
  {
    if ids == [] then sv
    else
      var scheduled := sv.retryTimers[ids[0]];
      assert ids[0] in ids;
      var next :=
        if ids[0] in sv.state.retrying && sv.state.retrying[ids[0]].nonce == scheduled.nonce then sv
        else Stop(sv, scheduled.timer).(retryTimers := sv.retryTimers - {ids[0]});
      DropStale(next, ids[1..])
  }

  function Max0(x: int): int {
    if x < 0 then 0 else x
  }

  /** A queued retry that has no timer of its nonce gets one. */
  function ArmOne(sv: ServiceState, now: int, id: string): ServiceState
    requires id in sv.state.retrying
  {
    var entry := sv.state.retrying[id];
    if id in sv.retryTimers && sv.retryTimers[id].nonce == entry.nonce then sv
    else AfterFunc(sv.(retryTimers := sv.retryTimers[id := Scheduled(entry.nonce, sv.issued)]),
                   now, Max0(entry.dueAt - now), RetryTick(id, entry.nonce))
  }

  function ArmMissing(sv: ServiceState, now: int, ids: seq<string>): ServiceState
    requires forall id :: id in ids ==> id in sv.state.retrying
    decreases |ids|
  {
    if ids == [] then sv else ArmMissing(ArmOne(sv, now, ids[0]), now, ids[1..])
  }

  ghost function SyncRetryTimers(deps: Deps, sv: ServiceState, now: int): ServiceState
    requires WellOrdered(deps)
  {
    var calls := sv.state.calls;
    var known := deps.order(calls, sv.retryTimers.Keys);
    assert Lists(known, sv.retryTimers.Keys);
    var queued := deps.order(calls + 1, sv.state.retrying.Keys);
    assert Lists(queued, sv.state.retrying.Keys);
    var counted := sv.(state := sv.state.(calls := calls + 2));
    DropStaleKeepsState(counted, known);
    ArmMissing(DropStale(counted, known), now, queued)
  }

  lemma {:induction false} DropStaleKeepsState(sv: ServiceState, ids: seq<string>)
    requires forall id :: id in ids ==> id in sv.retryTimers
    requires forall i, j :: 0 <= i < j < |ids| ==> ids[i] != ids[j]
    ensures DropStale(sv, ids).state == sv.state && DropStale(sv, ids).closed == sv.closed
    decreases |ids|
  {
    if ids != [] {
      var scheduled := sv.retryTimers[ids[0]];
      var next :=
        if ids[0] in sv.state.retrying && sv.state.retrying[ids[0]].nonce == scheduled.nonce then sv
        else Stop(sv, scheduled.timer).(retryTimers := sv.retryTimers - {ids[0]});
      DropStaleKeepsState(next, ids[1..]);
    }
  }

  ghost function Reconcile(cfg: Config, deps: Deps, s: State, now: int): State
    requires WellOrdered(deps)
  {
    ReconcileRunning(cfg, deps, ReconcileStalled(cfg, deps, s, now))
  }

  function ListAndDispatch(cfg: Config, deps: Deps, s: State, now: int): State {
    if deps.list.None? then s
    else
      var answer := deps.list.value(s.calls);
      var listed := s.(calls := s.calls + 1);
      if answer.Err? then listed else ProcessCandidates(cfg, deps, listed, now, answer.value)
  }

  ghost function CycleState(cfg: Config, deps: Deps, s: State, now: int): State
    requires WellOrdered(deps)
  {
    ListAndDispatch(cfg, deps, Reconcile(cfg, deps, s, now), now)
  }

  ghost function HandlePollCycle(cfg: Config, deps: Deps, sv: ServiceState, now: int, nonce: nat): ServiceState
    requires WellOrdered(deps)
  {
    if sv.closed || !sv.state.checking || nonce != sv.state.pollNonce then sv
    else
      var synced := SyncRetryTimers(deps, sv.(state := CycleState(cfg, deps, sv.state, now)), now);
      SchedulePoll(synced.(state := FinishPoll(cfg, synced.state, now)), now, cfg.interval)
  }

  ghost function HandleRetryTick(
    cfg: Config, deps: Deps, sv: ServiceState, now: int, id: string, nonce: nat): ServiceState
    requires WellOrdered(deps)
  {
    if sv.closed then sv
    else
      var forgotten :=
        if id in sv.retryTimers && sv.retryTimers[id].nonce == nonce
        then sv.(retryTimers := sv.retryTimers - {id}) else sv;
      SyncRetryTimers(deps, forgotten.(state := HandleDueRetry(cfg, deps, sv.state, now, id, nonce)), now)
  }

  ghost function ApplyEvent(cfg: Config, deps: Deps, sv: ServiceState, now: int, event: RunEvent): ServiceState
    requires WellOrdered(deps)
  {
    SyncRetryTimers(deps, sv.(state := ApplyRunEvent(cfg, sv.state, now, event)), now)
  }

  function StopEach(sv: ServiceState, ids: seq<string>): ServiceState
    requires forall id :: id in ids ==> id in sv.retryTimers
    requires forall i, j :: 0 <= i < j < |ids| ==> ids[i] != ids[j]
    decreases |ids|
  {
    if ids == [] then sv
    else
      assert ids[0] in ids;
      StopEach(Stop(sv, sv.retryTimers[ids[0]].timer).(retryTimers := sv.retryTimers - {ids[0]}), ids[1..])
  }

  ghost function Close(deps: Deps, sv: ServiceState): ServiceState
    requires WellOrdered(deps)
  {
    var ids := deps.order(sv.state.calls, sv.retryTimers.Keys);
    assert Lists(ids, sv.retryTimers.Keys);
    var stopped := StopSome(StopSome(sv.(closed := true), sv.pollTimer), sv.cycleTimer);
    StopEach(stopped.(state := stopped.state.(calls := stopped.state.calls + 1)), ids)
  }

  // ----- runs -----

  /** What can happen next: time passes, a launched callback gets the mutex, or somebody calls in. */
  datatype Input =
    | Expire(timer: nat)
    | Deliver(timer: nat, now: int)
    | Event(event: RunEvent, now: int)
    | Ask(now: int)
    | CloseService

  ghost function Step(cfg: Config, deps: Deps, sv: ServiceState, input: Input): ServiceState
    requires WellOrdered(deps)
  {
    match input
    case Expire(t) => if t in sv.timers then sv.(timers := sv.timers[t := sv.timers[t].(expired := true)]) else sv
    case Deliver(t, now) =>
      if t !in sv.timers || !sv.timers[t].expired then sv
      else Call(cfg, deps, sv.(timers := sv.timers - {t}), now, sv.timers[t].call)
    case Event(event, now) => ApplyEvent(cfg, deps, sv, now, event)
    case Ask(now) => Refresh(sv, now).0
    case CloseService => Close(deps, sv)
  }

  ghost function Call(cfg: Config, deps: Deps, sv: ServiceState, now: int, call: Callback): ServiceState
    requires WellOrdered(deps)
  {
    match call
    case Tick(nonce) => HandlePollTick(cfg, sv, now, nonce)
    case Cycle(nonce) => HandlePollCycle(cfg, deps, sv, now, nonce)
    case RetryTick(id, nonce) => HandleRetryTick(cfg, deps, sv, now, id, nonce)
  }

  ghost function RunFrom(cfg: Config, deps: Deps, sv: ServiceState, inputs: seq<Input>): ServiceState
    requires WellOrdered(deps)
    decreases |inputs|
  {
    if inputs == [] then sv else RunFrom(cfg, deps, Step(cfg, deps, sv, inputs[0]), inputs[1..])
  }
}
