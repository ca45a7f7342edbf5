/**
 A step of the service as the scheduling operations it makes, one after the other, and a run as all of them.
 What every operation keeps holds throughout every run.
 */
module Trails {
  import opened Domain
  import opened Scheduler
  import opened Lifecycle
  import opened Safety
  import opened Service
  import opened ServiceSafety
  import opened Runs

  /** One scheduling operation; `Quiet` stands for what only counts calls or concerns polling. */
  datatype Operation =
    | Quiet(to: State)
    | Stalls(now: int)
    | Refreshes
    | Candidate(now: int, item: WorkItem)
    | TakeRetry(now: int, id: string, nonce: nat)
    | Arrives(now: int, event: RunEvent)

  ghost function Apply(cfg: Config, deps: Deps, s: State, op: Operation): State
    requires WellOrdered(deps)
  {
    match op
    case Quiet(to) => if Unmoved(s, to) then to else s
    case Stalls(now) => Scheduler.ReconcileStalled(cfg, deps, s, now)
    case Refreshes => Scheduler.ReconcileRunning(cfg, deps, s)
    case Candidate(now, item) => TryCandidate(cfg, deps, s, now, item)
    case TakeRetry(now, id, nonce) => HandleDueRetry(cfg, deps, s, now, id, nonce)
    case Arrives(now, event) => ApplyRunEvent(cfg, s, now, event)
  }

  ghost function Along(cfg: Config, deps: Deps, s: State, ops: seq<Operation>): State
    requires WellOrdered(deps)
    decreases |ops|
  {
    if ops == [] then s else Along(cfg, deps, Apply(cfg, deps, s, ops[0]), ops[1..])
  }

  lemma {:induction false} AlongAppend(cfg: Config, deps: Deps, s: State, a: seq<Operation>, b: seq<Operation>)
    requires WellOrdered(deps)
    ensures Along(cfg, deps, s, a + b) == Along(cfg, deps, Along(cfg, deps, s, a), b)
    decreases |a|
  {
    if a == [] {
      assert a + b == b;
    } else {
      assert (a + b)[0] == a[0] && (a + b)[1..] == a[1..] + b;
      AlongAppend(cfg, deps, Apply(cfg, deps, s, a[0]), a[1..], b);
    }
  }

  lemma AlongOne(cfg: Config, deps: Deps, s: State, ops: seq<Operation>, op: Operation)
    requires WellOrdered(deps)
    ensures Along(cfg, deps, s, ops + [op]) == Apply(cfg, deps, Along(cfg, deps, s, ops), op)
  {
    AlongAppend(cfg, deps, s, ops, [op]);
    assert [op][1..] == [];
  }

  lemma AlongSingle(cfg: Config, deps: Deps, s: State, op: Operation)
    requires WellOrdered(deps)
    ensures Along(cfg, deps, s, [op]) == Apply(cfg, deps, s, op)
  {
    assert [op][1..] == [];
  }

  // ----- the operations of one step -----

  function Tries(now: int, items: seq<WorkItem>): seq<Operation> {
    if items == [] then [] else [Candidate(now, items[0])] + Tries(now, items[1..])
  }

  lemma {:induction false} TriesAreCandidates(cfg: Config, deps: Deps, s: State, now: int, items: seq<WorkItem>)
    requires WellOrdered(deps)
    ensures Along(cfg, deps, s, Tries(now, items)) == TryCandidates(cfg, deps, s, now, items)
    decreases |items|
  {
    if items != [] {
      assert Tries(now, items)[1..] == Tries(now, items[1..]);
      TriesAreCandidates(cfg, deps, TryCandidate(cfg, deps, s, now, items[0]), now, items[1..]);
    }
  }

  /** Listing and dispatching: two counted calls around the sorted candidates. */
  function ListTrail(deps: Deps, s: State, now: int): seq<Operation> {
    if deps.list.None? then []
    else
      var answer := deps.list.value(s.calls);
      if answer.Err? then [Quiet(s.(calls := s.calls + 1))]
      else [Quiet(s.(calls := s.calls + 2))] + Tries(now, deps.sort(s.calls + 1, answer.value))
  }

  lemma ListIsTrail(cfg: Config, deps: Deps, s: State, now: int)
    requires WellOrdered(deps)
    ensures Along(cfg, deps, s, ListTrail(deps, s, now)) == ListAndDispatch(cfg, deps, s, now)
  {
    if deps.list.Some? {
      var answer := deps.list.value(s.calls);
      if answer.Ok? {
        var tries := Tries(now, deps.sort(s.calls + 1, answer.value));
        AlongAppend(cfg, deps, s, [Quiet(s.(calls := s.calls + 2))], tries);
        AlongSingle(cfg, deps, s, Quiet(s.(calls := s.calls + 2)));
        TriesAreCandidates(cfg, deps, s.(calls := s.calls + 2), now, deps.sort(s.calls + 1, answer.value));
      } else {
        AlongSingle(cfg, deps, s, Quiet(s.(calls := s.calls + 1)));
      }
    }
  }

  ghost function CycleTrail(cfg: Config, deps: Deps, s: State, now: int): seq<Operation>
    requires WellOrdered(deps)
  {
    [Stalls(now), Refreshes] + ListTrail(deps, Reconcile(cfg, deps, s, now), now)
  }

  lemma CycleIsTrail(cfg: Config, deps: Deps, s: State, now: int)
    requires WellOrdered(deps)
    ensures Along(cfg, deps, s, CycleTrail(cfg, deps, s, now)) == CycleState(cfg, deps, s, now)
  {
    var reconciled := Reconcile(cfg, deps, s, now);
    assert [Stalls(now), Refreshes] == [Stalls(now)] + [Refreshes];
    AlongSingle(cfg, deps, s, Stalls(now));
    AlongOne(cfg, deps, s, [Stalls(now)], Refreshes);
    AlongAppend(cfg, deps, s, [Stalls(now), Refreshes], ListTrail(deps, reconciled, now));
    ListIsTrail(cfg, deps, reconciled, now);
  }

  /** What a callback makes the scheduler do, before the timers are synchronised. */
  ghost function CallTrail(cfg: Config, deps: Deps, sv: ServiceState, now: int, call: Callback): seq<Operation>
    requires WellOrdered(deps)
  {
    match call
    case Tick(_) => []
    case Cycle(nonce) =>
      if sv.closed || !sv.state.checking || nonce != sv.state.pollNonce then []
      else CycleTrail(cfg, deps, sv.state, now)
    case RetryTick(id, nonce) => if sv.closed then [] else [TakeRetry(now, id, nonce)]
  }

  ghost function InputTrail(cfg: Config, deps: Deps, sv: ServiceState, input: Input): seq<Operation>
    requires WellOrdered(deps)
  {
    match input
    case Deliver(t, now) =>
      if t in sv.timers && sv.timers[t].expired then CallTrail(cfg, deps, sv, now, sv.timers[t].call) else []
    case Event(event, now) => [Arrives(now, event)]
    case _ => []
  }

  /** The operations of a step; a last `Quiet` covers what it does to polling and to the call count. */
  ghost function StepTrail(cfg: Config, deps: Deps, sv: ServiceState, input: Input): seq<Operation>
    requires WellOrdered(deps)
  {
    InputTrail(cfg, deps, sv, input) + [Quiet(Step(cfg, deps, sv, input).state)]
  }

  lemma CallIsTrail(cfg: Config, deps: Deps, sv: ServiceState, now: int, call: Callback)
    requires WellOrdered(deps)
    ensures Unmoved(Along(cfg, deps, sv.state, CallTrail(cfg, deps, sv, now, call)), Call(cfg, deps, sv, now, call).state)
  {
    match call
    case Tick(nonce) =>
    case Cycle(nonce) =>
      if !(sv.closed || !sv.state.checking || nonce != sv.state.pollNonce) {
        CycleIsTrail(cfg, deps, sv.state, now);
        SyncKeeps(deps, sv.(state := CycleState(cfg, deps, sv.state, now)), now);
      }
    case RetryTick(id, nonce) =>
      if !sv.closed {
        var s := HandleDueRetry(cfg, deps, sv.state, now, id, nonce);
        AlongSingle(cfg, deps, sv.state, TakeRetry(now, id, nonce));
        var forgotten :=
          if id in sv.retryTimers && sv.retryTimers[id].nonce == nonce
          then sv.(retryTimers := sv.retryTimers - {id}) else sv;
        SyncKeeps(deps, forgotten.(state := s), now);
      }
  }

  lemma DeliverIsTrail(cfg: Config, deps: Deps, sv: ServiceState, t: nat, now: int)
    requires WellOrdered(deps) && t in sv.timers && sv.timers[t].expired
    ensures Unmoved(Along(cfg, deps, sv.state, CallTrail(cfg, deps, sv, now, sv.timers[t].call)),
                    Step(cfg, deps, sv, Deliver(t, now)).state)
  {
    var taken := sv.(timers := sv.timers - {t});
    CallIsTrail(cfg, deps, taken, now, sv.timers[t].call);
    assert CallTrail(cfg, deps, taken, now, sv.timers[t].call) == CallTrail(cfg, deps, sv, now, sv.timers[t].call);
  }

  lemma EventIsTrail(cfg: Config, deps: Deps, sv: ServiceState, event: RunEvent, now: int)
    requires WellOrdered(deps)
    ensures Unmoved(Along(cfg, deps, sv.state, [Arrives(now, event)]), ApplyEvent(cfg, deps, sv, now, event).state)
  {
    AlongSingle(cfg, deps, sv.state, Arrives(now, event));
    SyncKeeps(deps, sv.(state := ApplyRunEvent(cfg, sv.state, now, event)), now);
  }

  lemma InputIsTrail(cfg: Config, deps: Deps, sv: ServiceState, input: Input)
    requires WellOrdered(deps)
    ensures Unmoved(Along(cfg, deps, sv.state, InputTrail(cfg, deps, sv, input)), Step(cfg, deps, sv, input).state)
  {
    if input.Deliver? {
      if input.timer in sv.timers && sv.timers[input.timer].expired {
        DeliverIsTrail(cfg, deps, sv, input.timer, input.now);
      }
    } else if input.Event? {
      EventIsTrail(cfg, deps, sv, input.event, input.now);
    } else {
      OtherIsQuiet(cfg, deps, sv, input);
    }
  }

  lemma OtherIsQuiet(cfg: Config, deps: Deps, sv: ServiceState, input: Input)
    requires WellOrdered(deps) && !input.Deliver? && !input.Event?
    ensures Unmoved(sv.state, Step(cfg, deps, sv, input).state)
  {
    if input.CloseService? { CloseKeeps(deps, sv); }
    if input.Ask? { RefreshUnmoved(sv, input.now); }
  }

  /** A step of the service is its operations. */
  lemma StepIsTrail(cfg: Config, deps: Deps, sv: ServiceState, input: Input)
    requires WellOrdered(deps)
    ensures Along(cfg, deps, sv.state, StepTrail(cfg, deps, sv, input)) == Step(cfg, deps, sv, input).state
  {
    AlongOne(cfg, deps, sv.state, InputTrail(cfg, deps, sv, input), Quiet(Step(cfg, deps, sv, input).state));
    InputIsTrail(cfg, deps, sv, input);
  }

  // ----- the operations of a run -----

  ghost function RunTrail(cfg: Config, deps: Deps, sv: ServiceState, inputs: seq<Input>): seq<Operation>
    requires WellOrdered(deps)
    decreases |inputs|
  {
    if inputs == [] then []
    else StepTrail(cfg, deps, sv, inputs[0]) + RunTrail(cfg, deps, Step(cfg, deps, sv, inputs[0]), inputs[1..])
  }

  /** A run of the service is its operations. */
  lemma {:induction false} RunIsTrail(cfg: Config, deps: Deps, sv: ServiceState, inputs: seq<Input>)
    requires WellOrdered(deps)
    ensures Along(cfg, deps, sv.state, RunTrail(cfg, deps, sv, inputs)) == RunFrom(cfg, deps, sv, inputs).state
    decreases |inputs|
  {
    if inputs != [] {
      var next := Step(cfg, deps, sv, inputs[0]);
      StepIsTrail(cfg, deps, sv, inputs[0]);
      RunIsTrail(cfg, deps, next, inputs[1..]);
      AlongAppend(cfg, deps, sv.state, StepTrail(cfg, deps, sv, inputs[0]), RunTrail(cfg, deps, next, inputs[1..]));
    }
  }

  lemma ApplySound(cfg: Config, deps: Deps, s: State, op: Operation)
    requires Inv(cfg, s) && Environment(deps)
    ensures Inv(cfg, Apply(cfg, deps, s, op))
  {
    match op
    case Quiet(to) => if Unmoved(s, to) { SameCore(cfg, s, to); }
    case Stalls(now) => ReconcileStalledSound(cfg, deps, s, now);
    case Refreshes => ReconcileRunningSound(cfg, deps, s);
    case Candidate(now, item) => TryCandidateSound(cfg, deps, s, now, item);
    case TakeRetry(now, id, nonce) => HandleDueRetrySound(cfg, deps, s, now, id, nonce);
    case Arrives(now, event) => ApplyRunEventSound(cfg, s, now, event);
  }
}
