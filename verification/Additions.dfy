/** What the scheduler's operations may add to the history when no worker event is involved. */
module Additions {
  import opened Domain
  import opened Scheduler
  import opened Lifecycle
  import opened Safety
  import opened Service
  import opened ServiceSafety
  import opened Trails

  /** A retry queued because a worker reported the end of its run. */
  predicate EndsItem(action: Action, id: string) {
    action.Queued? && action.id == id && (action.cause.Completed? || action.cause.WorkerFailed?)
  }

  predicate Starts(action: Action) {
    action.Started? && action.ok
  }

  /** No end of a run; a successful start only if `starting`. */
  predicate Plain(action: Action, starting: bool) {
    !EndsItem(action, action.id) && (Starts(action) ==> starting)
  }

  ghost predicate Adds(s: State, t: State, starting: bool) {
    s.log <= t.log && forall k :: |s.log| <= k < |t.log| ==> Plain(t.log[k], starting)
  }

  /** Neither starts nor ends of runs. */
  ghost predicate Silent(s: State, t: State) {
    s.log <= t.log && forall k :: |s.log| <= k < |t.log| ==> !t.log[k].Started? && !EndsItem(t.log[k], t.log[k].id)
  }

  lemma SilentTransitive(s: State, t: State, u: State)
    requires Silent(s, t) && Silent(t, u)
    ensures Silent(s, u)
  {
  }

  /** Starts may succeed, or startRun refuses every call. */
  ghost predicate Permits(deps: Deps, starting: bool) {
    starting || (deps.start.Some? && forall n: nat, request :: deps.start.value(n, request).Err?)
  }

  lemma AddsTransitive(s: State, t: State, u: State, starting: bool)
    requires Adds(s, t, starting) && Adds(t, u, starting)
    ensures Adds(s, u, starting)
  {
  }

  lemma StartOnAdds(
    cfg: Config, deps: Deps, s: State, now: int, item: WorkItem, attempt: int, host: string, starting: bool)
    requires Permits(deps, starting)
    ensures Adds(s, StartOn(cfg, deps, s, now, item, attempt, host).0, starting)
  {
  }

  lemma DispatchAdds(
    cfg: Config, deps: Deps, s: State, now: int, item: WorkItem, attempt: int, preferred: string, starting: bool)
    requires Permits(deps, starting)
    ensures Adds(s, DispatchItem(cfg, deps, s, now, item, attempt, preferred).0, starting)
  {
    var (admitted, host) := AdmitHost(deps, s, preferred);
    if host.Some? {
      StartOnAdds(cfg, deps, admitted, now, item, attempt, host.value, starting);
    }
  }

  lemma CandidateAdds(cfg: Config, deps: Deps, s: State, now: int, item: WorkItem, starting: bool)
    requires Permits(deps, starting)
    ensures Adds(s, TryCandidate(cfg, deps, s, now, item), starting)
  {
    var (called, refreshed) := RevalidateCandidate(cfg, deps, s, item.id);
    if refreshed.Some? {
      DispatchAdds(cfg, deps, called, now, refreshed.value, 0, "", starting);
    }
  }

  lemma RequeueAdds(
    cfg: Config, s: State, now: int, id: string, entry: Retry, identifier: string, cause: Cause, starting: bool)
    requires cause.RefreshFailed? || cause.NoSlots?
    ensures Adds(s, Requeue(cfg, s, now, id, entry, identifier, cause), starting)
  {
  }

  lemma RedispatchAdds(
    cfg: Config, deps: Deps, s: State, now: int, id: string, entry: Retry, item: WorkItem, starting: bool)
    requires Permits(deps, starting)
    ensures Adds(s, Redispatch(cfg, deps, s, now, id, entry, item), starting)
  {
    RequeueAdds(cfg, s, now, id, entry, item.identifier, NoSlots, starting);
    var dispatched := DispatchItem(cfg, deps, s, now, item, entry.attempt, entry.workerHost).0;
    DispatchAdds(cfg, deps, s, now, item, entry.attempt, entry.workerHost, starting);
    RequeueAdds(cfg, dispatched, now, id, entry, item.identifier, NoSlots, starting);
    AddsTransitive(s, dispatched, Requeue(cfg, dispatched, now, id, entry, item.identifier, NoSlots), starting);
  }

  lemma SettleAdds(
    cfg: Config, deps: Deps, s: State, now: int, id: string, entry: Retry, status: RetryStatus, starting: bool)
    requires Permits(deps, starting)
    ensures Adds(s, Settle(cfg, deps, s, now, id, entry, status), starting)
  {
    RequeueAdds(cfg, s, now, id, entry, entry.identifier, RefreshFailed, starting);
    if status.Ready? {
      RedispatchAdds(cfg, deps, s, now, id, entry, status.item, starting);
    }
  }

  lemma RetryAdds(cfg: Config, deps: Deps, s: State, now: int, id: string, nonce: nat, starting: bool)
    requires Permits(deps, starting)
    ensures Adds(s, HandleDueRetry(cfg, deps, s, now, id, nonce), starting)
  {
    if id in s.retrying && s.retrying[id].nonce == nonce {
      var (due, status) := RefreshRetryItem(cfg, deps, Consume(s, id, nonce), id);
      SettleAdds(cfg, deps, due, now, id, s.retrying[id], status, starting);
      AddsTransitive(s, due, Settle(cfg, deps, due, now, id, s.retrying[id], status), starting);
    }
  }

  lemma StallRunSilent(cfg: Config, s: State, now: int, id: string, run: Run)
    ensures Silent(s, StallRun(cfg, s, now, id, run))
  {
  }

  lemma {:induction false} StallEachSilent(
    cfg: Config, s: State, now: int, runs: map<string, Run>, ids: seq<string>)
    requires forall id :: id in ids ==> id in runs
    ensures Silent(s, StallEach(cfg, s, now, runs, ids))
    decreases |ids|
  {
    if ids != [] {
      var run := runs[ids[0]];
      var t := if IsStalled(cfg, run, now) then StallRun(cfg, s, now, ids[0], run) else s;
      StallRunSilent(cfg, s, now, ids[0], run);
      StallEachSilent(cfg, t, now, runs, ids[1..]);
      SilentTransitive(s, t, StallEach(cfg, t, now, runs, ids[1..]));
    }
  }

  lemma {:induction false} ReconcileEachSilent(
    cfg: Config, s: State, visible: map<string, WorkItem>, runs: map<string, Run>, ids: seq<string>)
    requires forall id :: id in ids ==> id in runs
    ensures Silent(s, ReconcileEach(cfg, s, visible, runs, ids))
    decreases |ids|
  {
    if ids != [] {
      var t := ReconcileOne(cfg, s, visible, ids[0], runs[ids[0]]);
      ReconcileEachSilent(cfg, t, visible, runs, ids[1..]);
      SilentTransitive(s, t, ReconcileEach(cfg, t, visible, runs, ids[1..]));
    }
  }

  lemma StallsSilent(cfg: Config, deps: Deps, s: State, now: int)
    requires WellOrdered(deps)
    ensures Silent(s, Scheduler.ReconcileStalled(cfg, deps, s, now))
  {
    var ids := deps.order(s.calls, s.running.Keys);
    assert Lists(ids, s.running.Keys);
    StallEachSilent(cfg, s.(calls := s.calls + 1), now, s.running, ids);
  }

  lemma AnswerSilent(cfg: Config, deps: Deps, s: State, answer: Answer<seq<WorkItem>>)
    requires WellOrdered(deps)
    ensures Silent(s, ReconcileAnswer(cfg, deps, s, answer))
  {
    if answer.Ok? {
      var ids := deps.order(s.calls + 2, s.running.Keys);
      assert Lists(ids, s.running.Keys);
      ReconcileEachSilent(cfg, s.(calls := s.calls + 3), ById(answer.value), s.running, ids);
    }
  }

  lemma RefreshSilent(cfg: Config, deps: Deps, s: State)
    requires WellOrdered(deps)
    ensures Silent(s, Scheduler.ReconcileRunning(cfg, deps, s))
  {
    if s.running != map[] && deps.refresh.Some? {
      AnswerSilent(cfg, deps, s, deps.refresh.value(s.calls + 1, deps.order(s.calls, s.running.Keys)));
    }
  }

  lemma OperationAdds(cfg: Config, deps: Deps, s: State, op: Operation, starting: bool)
    requires WellOrdered(deps) && Permits(deps, starting) && !op.Arrives?
    ensures Adds(s, Apply(cfg, deps, s, op), starting)
  {
    match op
    case Quiet(_) =>
    case Stalls(now) => StallsSilent(cfg, deps, s, now);
    case Refreshes => RefreshSilent(cfg, deps, s);
    case Candidate(now, item) => CandidateAdds(cfg, deps, s, now, item, starting);
    case TakeRetry(now, id, nonce) => RetryAdds(cfg, deps, s, now, id, nonce, starting);
  }

  lemma {:induction false} AlongAdds(cfg: Config, deps: Deps, s: State, ops: seq<Operation>, starting: bool)
    requires WellOrdered(deps) && Permits(deps, starting) && forall k :: 0 <= k < |ops| ==> !ops[k].Arrives?
    ensures Adds(s, Along(cfg, deps, s, ops), starting)
    decreases |ops|
  {
    if ops != [] {
      var next := Apply(cfg, deps, s, ops[0]);
      OperationAdds(cfg, deps, s, ops[0], starting);
      AlongAdds(cfg, deps, next, ops[1..], starting);
      AddsTransitive(s, next, Along(cfg, deps, next, ops[1..]), starting);
    }
  }

  /** A step that delivers no event ends no run, and starts none where startRun refuses. */
  lemma StepAdds(cfg: Config, deps: Deps, sv: ServiceState, input: Input, starting: bool)
    requires WellOrdered(deps) && Permits(deps, starting) && !input.Event?
    ensures Adds(sv.state, Step(cfg, deps, sv, input).state, starting)
  {
    NoEventInTrail(cfg, deps, sv, input);
    AlongAdds(cfg, deps, sv.state, StepTrail(cfg, deps, sv, input), starting);
    StepIsTrail(cfg, deps, sv, input);
  }

  lemma NoEventInTries(now: int, items: seq<WorkItem>)
    ensures forall k :: 0 <= k < |Tries(now, items)| ==> Tries(now, items)[k].Candidate?
  {
  }

  lemma NoEventInTrail(cfg: Config, deps: Deps, sv: ServiceState, input: Input)
    requires WellOrdered(deps) && !input.Event?
    ensures var ops := StepTrail(cfg, deps, sv, input); forall k :: 0 <= k < |ops| ==> !ops[k].Arrives?
  {
    var ops := InputTrail(cfg, deps, sv, input);
    if input.Deliver? && input.timer in sv.timers && sv.timers[input.timer].call.Cycle? {
      var reconciled := Reconcile(cfg, deps, sv.state, input.now);
      if deps.list.Some? && deps.list.value(reconciled.calls).Ok? {
        NoEventInTries(input.now, deps.sort(reconciled.calls + 1, deps.list.value(reconciled.calls).value));
      }
    }
    assert forall k :: 0 <= k < |ops| ==> !ops[k].Arrives?;
  }

  /** What an event adds: it ends a run only if it is terminal and its item is running. */
  lemma EventAdds(cfg: Config, s: State, now: int, event: RunEvent, k: nat)
    requires Inv(cfg, s) && |s.log| <= k < |ApplyRunEvent(cfg, s, now, event).log|
    ensures s.log <= ApplyRunEvent(cfg, s, now, event).log
    ensures var action := ApplyRunEvent(cfg, s, now, event).log[k];
            !action.Started? && !action.StopCalled?
            && (EndsItem(action, action.id) ==> event.Terminal() && action.id == event.itemId && event.itemId in s.running)
  {
    assert Sound(s, event.itemId);
  }
}
