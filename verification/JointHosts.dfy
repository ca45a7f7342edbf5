/**
 The host limit where the workers themselves emit the events: it holds in every interleaving in which a
 running item hears, apart from the end of a run, only from the worker it runs under; and it is broken by an
 interleaving in which a stopped worker of the item is heard late.
 */
module JointHosts {
  import opened Text
  import opened Domain
  import opened Scheduler
  import opened Lifecycle
  import opened Safety
  import opened Service
  import opened ServiceSafety
  import opened Runs
  import opened Trails
  import opened Additions
  import opened Workers
  import opened HostCapacity
  import Frames

  // ----- every running entry stands where its start put it -----

  predicate StartsRun(action: Action, id: string, run: Run) {
    IsStart(action, id) && action.handle == run.handle && Trim(action.host) == Trim(run.workerHost)
  }

  /** The entry has the handle and the host of a start of its item. */
  ghost predicate Placement(log: seq<Action>, id: string, run: Run) {
    exists k :: 0 <= k < |log| && StartsRun(log[k], id, run)
  }

  ghost predicate Placed(s: State) {
    forall id :: id in s.running ==> Placement(s.log, id, s.running[id])
  }

  lemma PlacementLasts(log: seq<Action>, longer: seq<Action>, id: string, run: Run, later: Run)
    requires log <= longer && Placement(log, id, run)
    requires later.handle == run.handle && Trim(later.workerHost) == Trim(run.workerHost)
    ensures Placement(longer, id, later)
  {
    var k :| 0 <= k < |log| && StartsRun(log[k], id, run);
    assert StartsRun(longer[k], id, later);
  }

  /** An operation that starts nothing and leaves the remaining runs where they are. */
  lemma StaysPlaced(s: State, t: State)
    requires Placed(s) && s.log <= t.log && StaysPut(s.running, t.running)
    ensures Placed(t)
  {
    forall id | id in t.running ensures Placement(t.log, id, t.running[id]) {
      PlacementLasts(s.log, t.log, id, s.running[id], t.running[id]);
    }
  }

  lemma BeginRunPlaced(s: State, now: int, item: WorkItem, attempt: int, host: string, result: StartResult)
    requires Placed(s) && (IsBlank(result.workerHost) || Trim(result.workerHost) == Trim(host))
    ensures Placed(BeginRun(s, now, item, attempt, host, result))
  {
    var t := BeginRun(s, now, item, attempt, host, result);
    assert StartsRun(t.log[|s.log|], item.id, t.running[item.id]);
    forall id | id in t.running ensures Placement(t.log, id, t.running[id]) {
      if id != item.id { PlacementLasts(s.log, t.log, id, s.running[id], t.running[id]); }
    }
  }

  lemma StartOnPlaced(cfg: Config, deps: Deps, s: State, now: int, item: WorkItem, attempt: int, host: string)
    requires Placed(s) && EchoesHost(deps)
    ensures Placed(StartOn(cfg, deps, s, now, item, attempt, host).0)
  {
    var (called, answer) := CallStart(deps, s, StartRequest(item, attempt, host));
    if answer.Ok? {
      BeginRunPlaced(called, now, item, attempt, host, answer.value);
    } else {
      StaysPlaced(s, RefuseStart(cfg, called, now, item, attempt, host, answer.message));
    }
  }

  lemma DispatchPlaced(cfg: Config, deps: Deps, s: State, now: int, item: WorkItem, attempt: int, preferred: string)
    requires Placed(s) && EchoesHost(deps)
    ensures Placed(DispatchItem(cfg, deps, s, now, item, attempt, preferred).0)
  {
    var (admitted, host) := AdmitHost(deps, s, preferred);
    if host.Some? {
      StartOnPlaced(cfg, deps, admitted, now, item, attempt, host.value);
    }
  }

  lemma CandidatePlaced(cfg: Config, deps: Deps, s: State, now: int, item: WorkItem)
    requires Placed(s) && EchoesHost(deps)
    ensures Placed(TryCandidate(cfg, deps, s, now, item))
  {
    var (called, refreshed) := RevalidateCandidate(cfg, deps, s, item.id);
    if refreshed.Some? {
      DispatchPlaced(cfg, deps, called, now, refreshed.value, 0, "");
    }
  }

  lemma RequeuePlaced(
    cfg: Config, s: State, now: int, id: string, entry: Retry, identifier: string, cause: Cause)
    requires Placed(s)
    ensures Placed(Requeue(cfg, s, now, id, entry, identifier, cause))
  {
    StaysPlaced(s, Requeue(cfg, s, now, id, entry, identifier, cause));
  }

  lemma RedispatchPlaced(
    cfg: Config, deps: Deps, s: State, now: int, id: string, entry: Retry, item: WorkItem)
    requires Placed(s) && EchoesHost(deps)
    ensures Placed(Redispatch(cfg, deps, s, now, id, entry, item))
  {
    RequeuePlaced(cfg, s, now, id, entry, item.identifier, NoSlots);
    DispatchPlaced(cfg, deps, s, now, item, entry.attempt, entry.workerHost);
    var dispatched := DispatchItem(cfg, deps, s, now, item, entry.attempt, entry.workerHost).0;
    RequeuePlaced(cfg, dispatched, now, id, entry, item.identifier, NoSlots);
  }

  lemma SettlePlaced(cfg: Config, deps: Deps, s: State, now: int, id: string, entry: Retry, status: RetryStatus)
    requires Placed(s) && EchoesHost(deps)
    ensures Placed(Settle(cfg, deps, s, now, id, entry, status))
  {
    match status
    case Ready(item) => RedispatchPlaced(cfg, deps, s, now, id, entry, item);
    case RetryRefreshFailed => RequeuePlaced(cfg, s, now, id, entry, entry.identifier, RefreshFailed);
    case _ => StaysPlaced(s, Settle(cfg, deps, s, now, id, entry, status));
  }

  lemma RetryPlaced(cfg: Config, deps: Deps, s: State, now: int, id: string, nonce: nat)
    requires Placed(s) && EchoesHost(deps)
    ensures Placed(HandleDueRetry(cfg, deps, s, now, id, nonce))
  {
    if id in s.retrying && s.retrying[id].nonce == nonce {
      var (due, status) := RefreshRetryItem(cfg, deps, Consume(s, id, nonce), id);
      StaysPlaced(s, due);
      SettlePlaced(cfg, deps, due, now, id, s.retrying[id], status);
    }
  }

  lemma StallsPlaced(cfg: Config, deps: Deps, s: State, now: int)
    requires Placed(s) && WellOrdered(deps)
    ensures Placed(Scheduler.ReconcileStalled(cfg, deps, s, now))
  {
    var ids := deps.order(s.calls, s.running.Keys);
    assert Lists(ids, s.running.Keys);
    StallEachStays(cfg, s.(calls := s.calls + 1), now, s.running, ids);
    Frames.ReconcileStalledEvolves(cfg, deps, s, now);
    StaysPlaced(s, Scheduler.ReconcileStalled(cfg, deps, s, now));
  }

  lemma RefreshPlaced(cfg: Config, deps: Deps, s: State)
    requires Inv(cfg, s) && Placed(s) && WellOrdered(deps)
    ensures Placed(Scheduler.ReconcileRunning(cfg, deps, s))
  {
    ReconcileRunningStays(cfg, deps, s);
    Frames.ReconcileRunningEvolves(cfg, deps, s);
    StaysPlaced(s, Scheduler.ReconcileRunning(cfg, deps, s));
  }

  lemma OperationPlaced(cfg: Config, deps: Deps, s: State, op: Operation)
    requires Inv(cfg, s) && Placed(s) && Environment(deps) && EchoesHost(deps) && !op.Arrives?
    ensures Placed(Apply(cfg, deps, s, op))
  {
    match op
    case Quiet(_) =>
    case Stalls(now) => StallsPlaced(cfg, deps, s, now);
    case Refreshes => RefreshPlaced(cfg, deps, s);
    case Candidate(now, item) => CandidatePlaced(cfg, deps, s, now, item);
    case TakeRetry(now, id, nonce) => RetryPlaced(cfg, deps, s, now, id, nonce);
  }

  lemma {:induction false} AlongPlaced(cfg: Config, deps: Deps, s: State, ops: seq<Operation>)
    requires Inv(cfg, s) && Placed(s) && Environment(deps) && EchoesHost(deps)
    requires forall k :: 0 <= k < |ops| ==> !ops[k].Arrives?
    ensures Placed(Along(cfg, deps, s, ops))
    decreases |ops|
  {
    if ops != [] {
      OperationPlaced(cfg, deps, s, ops[0]);
      ApplySound(cfg, deps, s, ops[0]);
      AlongPlaced(cfg, deps, Apply(cfg, deps, s, ops[0]), ops[1..]);
    }
  }

  lemma StepPlaced(cfg: Config, deps: Deps, sv: ServiceState, input: Service.Input)
    requires ServiceInv(cfg, sv) && Placed(sv.state) && Environment(deps) && EchoesHost(deps) && !input.Event?
    ensures Placed(Step(cfg, deps, sv, input).state)
  {
    NoEventInTrail(cfg, deps, sv, input);
    AlongPlaced(cfg, deps, sv.state, StepTrail(cfg, deps, sv, input));
    StepIsTrail(cfg, deps, sv, input);
  }

  // ----- events of the item's own worker -----

  /** The event ends a run, is ignored, or comes from the worker under whose handle its item runs. */
  predicate IsOwn(sys: System, handle: nat, event: RunEvent) {
    event.Terminal() || event.itemId !in sys.sv.state.running
    || sys.sv.state.running[event.itemId].handle == Some(handle)
  }

  lemma SameStart(log: seq<Action>, i: nat, k: nat, h: nat)
    requires FreshHandles(log) && i < |log| && k < |log| && StartsHandle(log[i], h) && StartsHandle(log[k], h)
    ensures i == k
  {
  }

  /** Such an event names the host its item runs on. */
  lemma OwnEventEchoes(cfg: Config, sys: System, handle: nat, event: RunEvent)
    requires SystemInv(cfg, sys) && Placed(sys.sv.state) && FreshHandles(sys.sv.state.log)
    requires MayEmit(sys, handle, event) && IsOwn(sys, handle, event)
    ensures EchoingEvent(sys.sv.state, event)
  {
    var s, id, w := sys.sv.state, event.itemId, sys.workers[handle];
    if id in s.running && !event.Terminal() {
      var k :| 0 <= k < |s.log| && StartsRun(s.log[k], id, s.running[id]);
      assert StartedAs(s.log, handle, w);
      var i :| 0 <= i < |s.log| && IsStartOf(s.log[i], handle, w);
      SameStart(s.log, i, k, handle);
    }
  }

  lemma EventPlaced(cfg: Config, s: State, now: int, event: RunEvent)
    requires Placed(s) && EchoingEvent(s, event) && s.log <= ApplyRunEvent(cfg, s, now, event).log
    ensures Placed(ApplyRunEvent(cfg, s, now, event))
  {
    EventOnRunning(cfg, s, now, event);
    StaysPlaced(s, ApplyRunEvent(cfg, s, now, event));
  }

  // ----- service and workers together -----

  ghost predicate JointInv(cfg: Config, deps: Deps, sys: System) {
    SystemInv(cfg, sys) && Placed(sys.sv.state) && HostsWithin(deps, sys.sv.state.running)
  }

  ghost predicate OwnMove(sys: System, move: Move) {
    move.Emit? && MayEmit(sys, move.handle, move.event) ==> IsOwn(sys, move.handle, move.event)
  }

  /** What a running item hears, apart from the end of a run, it hears from its own worker. */
  ghost predicate OwnEmits(cfg: Config, deps: Deps, sys: System, moves: seq<Move>)
    requires WellOrdered(deps)
    decreases |moves|
  {
    moves != [] ==> OwnMove(sys, moves[0]) && OwnEmits(cfg, deps, Move1(cfg, deps, sys, moves[0]), moves[1..])
  }

  lemma FacingEchoes(deps: Deps, sys: System)
    requires EchoesHost(deps)
    ensures EchoesHost(Facing(deps, sys))
  {
  }

  lemma ServeJoint(cfg: Config, deps: Deps, sys: System, input: Service.Input)
    requires JointInv(cfg, deps, sys) && Environment(deps) && EchoesHost(deps) && !input.Event?
    ensures var t := Move1(cfg, deps, sys, Serve(input)).sv.state;
            sys.sv.state.log <= t.log && Placed(t) && HostsWithin(deps, t.running)
  {
    var env := Facing(deps, sys);
    FacingEnvironment(deps, sys);
    FacingEchoes(deps, sys);
    StepAdds(cfg, env, sys.sv, input, !sys.managerClosed);
    StepPlaced(cfg, env, sys.sv, input);
    StepWithin(cfg, env, sys.sv, input);
  }

  lemma EmitJoint(cfg: Config, deps: Deps, sys: System, handle: nat, event: RunEvent, now: int)
    requires JointInv(cfg, deps, sys) && WellOrdered(deps) && MayEmit(sys, handle, event)
    requires FreshHandles(sys.sv.state.log) && IsOwn(sys, handle, event)
    ensures var t := Move1(cfg, deps, sys, Emit(handle, event, now)).sv.state;
            Placed(t) && HostsWithin(deps, t.running)
  {
    OwnEventEchoes(cfg, sys, handle, event);
    EventKeepsLog(cfg, deps, sys.sv, event, now);
    EventPlaced(cfg, sys.sv.state, now, event);
    EchoingEventWithin(cfg, deps, sys.sv.state, now, event);
    SyncKeeps(deps, sys.sv.(state := ApplyRunEvent(cfg, sys.sv.state, now, event)), now);
  }

  /** The history of the service only grows. */
  lemma MoveGrows(cfg: Config, deps: Deps, sys: System, move: Move)
    requires Environment(deps)
    ensures sys.sv.state.log <= Move1(cfg, deps, sys, move).sv.state.log
  {
    match move
    case Serve(input) =>
      if !input.Event? {
        FacingEnvironment(deps, sys);
        StepAdds(cfg, Facing(deps, sys), sys.sv, input, !sys.managerClosed);
      }
    case Emit(handle, event, now) => EventKeepsLog(cfg, deps, sys.sv, event, now);
    case _ =>
  }

  lemma {:induction false} PlayGrows(cfg: Config, deps: Deps, sys: System, moves: seq<Move>)
    requires Environment(deps)
    ensures sys.sv.state.log <= Play(cfg, deps, sys, moves).sv.state.log
    decreases |moves|
  {
    if moves != [] {
      MoveGrows(cfg, deps, sys, moves[0]);
      PlayGrows(cfg, deps, Move1(cfg, deps, sys, moves[0]), moves[1..]);
    }
  }

  lemma MoveJoint(cfg: Config, deps: Deps, sys: System, move: Move)
    requires JointInv(cfg, deps, sys) && Environment(deps) && EchoesHost(deps)
    requires FreshHandles(sys.sv.state.log) && OwnMove(sys, move)
    ensures JointInv(cfg, deps, Move1(cfg, deps, sys, move))
  {
    MoveSound(cfg, deps, sys, move);
    match move
    case Serve(input) => if !input.Event? { ServeJoint(cfg, deps, sys, input); }
    case Emit(handle, event, now) =>
      if MayEmit(sys, handle, event) { EmitJoint(cfg, deps, sys, handle, event, now); }
    case _ =>
  }

  lemma {:induction false} PlayJoint(cfg: Config, deps: Deps, sys: System, moves: seq<Move>)
    requires JointInv(cfg, deps, sys) && Environment(deps) && EchoesHost(deps)
    requires FreshHandles(Play(cfg, deps, sys, moves).sv.state.log) && OwnEmits(cfg, deps, sys, moves)
    ensures JointInv(cfg, deps, Play(cfg, deps, sys, moves))
    decreases |moves|
  {
    if moves != [] {
      PlayGrows(cfg, deps, sys, moves);
      FreshPrefix(sys.sv.state.log, Play(cfg, deps, sys, moves).sv.state.log);
      MoveJoint(cfg, deps, sys, moves[0]);
      PlayJoint(cfg, deps, Move1(cfg, deps, sys, moves[0]), moves[1..]);
    }
  }

  /**
   In every interleaving of service and workers in which a running item hears only from its own worker, the
   ends of runs excepted, no host carries more than its limit. Stopped, stale and overtaken workers may emit.
   */
  lemma HostLimitHoldsForOwnEvents(cfg: Config, deps: Deps, start: int, moves: seq<Move>, host: string)
    requires Environment(deps) && EchoesHost(deps) && Limited(deps) && host != ""
    requires FreshHandles(Play(cfg, deps, NewSystem(start), moves).sv.state.log)
    requires OwnEmits(cfg, deps, NewSystem(start), moves)
    ensures |OnHost(Play(cfg, deps, NewSystem(start), moves).sv.state.running, host)| <= deps.hosts.value.maxPerHost.value
  {
    NewServiceSound(cfg, start);
    NoneWithin(deps);
    PlayJoint(cfg, deps, NewSystem(start), moves);
  }
}
