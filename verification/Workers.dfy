/**
 The workers of internal/cli/runtime.go beside the service: each goroutine of StartRun as an automaton
 whose events wait for the service mutex, interleaved with every step of the service.
 */
module Workers {
  import opened Domain
  import opened Scheduler
  import opened Lifecycle
  import opened Safety
  import opened Service
  import opened ServiceSafety
  import opened Runs
  import opened Additions
  import Tokens

  // ----- one worker -----

  /** Where runWorker stands; at the Emit and Announce points it waits for the service mutex. */
  datatype Pc =
    | AnnounceHost
    | CreateWorkspace
    | AnnounceCreated
    | AnnouncePath
    | Working
    | EmitWork(kind: EventKind)
    | EmitTerminal(kind: EventKind)
    | Leaving
    | Gone

  /** `emitted` is the history of the events the service has taken from this worker. */
  datatype Worker = Worker(itemId: string, host: string, pc: Pc, cancelled: bool, emitted: seq<EventKind>)

  /** What happens inside a worker between its events. */
  datatype Choice =
    | CreateSucceeds | CreateFails
    | Emits(kind: EventKind)      // a Codex event or a completed turn inside the turn loop
    | LoopEnds(ok: bool)          // hooks and turn loop return, with or without an error
    | Unregisters

  predicate IsTerminal(kind: EventKind) {
    kind.RunCompleted? || kind.RunFailed?
  }

  /** A cancelled context silences the end of the loop, but not a failed workspace creation. */
  function Advance(w: Worker, choice: Choice): Worker {
    match (w.pc, choice)
    case (CreateWorkspace, CreateSucceeds) => w.(pc := AnnounceCreated)
    case (CreateWorkspace, CreateFails) => w.(pc := EmitTerminal(RunFailed))
    case (Working, Emits(kind)) =>
      if kind.CodexEventReceived? || kind.TurnCompleted? then w.(pc := EmitWork(kind)) else w
    case (Working, LoopEnds(ok)) =>
      if w.cancelled then w.(pc := Leaving)
      else w.(pc := EmitTerminal(if ok then RunCompleted else RunFailed))
    case (Leaving, Unregisters) => w.(pc := Gone)
    case _ => w
  }

  /** The event the worker is waiting to emit. */
  function Pending(w: Worker): Option<EventKind> {
    match w.pc
    case AnnounceHost => Some(RunnerHostSelected)
    case AnnounceCreated => Some(WorkspaceCreated)
    case AnnouncePath => Some(WorkspacePathDiscovered)
    case EmitWork(kind) => Some(kind)
    case EmitTerminal(kind) => Some(kind)
    case _ => None
  }

  function Emitted(w: Worker): Worker
    requires Pending(w).Some?
  {
    var pc :=
      match w.pc
      case AnnounceHost => CreateWorkspace
      case AnnounceCreated => AnnouncePath
      case EmitTerminal(_) => Leaving
      case _ => Working;
    w.(pc := pc, emitted := w.emitted + [Pending(w).value])
  }

  /** Only the last event may be terminal; after it the worker only leaves, and without it only a cancelled one does. */
  ghost predicate Disciplined(w: Worker) {
    && (forall k :: 0 <= k < |w.emitted| - 1 ==> !IsTerminal(w.emitted[k]))
    && (w.pc.EmitTerminal? ==> IsTerminal(w.pc.kind))
    && (w.pc.EmitWork? ==> !IsTerminal(w.pc.kind))
    && (EndsTerminal(w) ==> w.pc.Leaving? || w.pc.Gone?)
    && (w.pc.Leaving? || w.pc.Gone? ==> EndsTerminal(w) || w.cancelled)
  }

  predicate EndsTerminal(w: Worker) {
    w.emitted != [] && IsTerminal(w.emitted[|w.emitted| - 1])
  }

  lemma StaysDisciplined(w: Worker, choice: Choice)
    requires Disciplined(w)
    ensures Disciplined(Advance(w, choice)) && Disciplined(w.(cancelled := true))
    ensures Pending(w).Some? ==> Disciplined(Emitted(w))
  {
  }

  function TerminalCount(events: seq<EventKind>): nat {
    if events == [] then 0
    else TerminalCount(events[..|events| - 1]) + (if IsTerminal(events[|events| - 1]) then 1 else 0)
  }

  lemma {:induction false} NoTerminals(events: seq<EventKind>)
    requires forall k :: 0 <= k < |events| ==> !IsTerminal(events[k])
    ensures TerminalCount(events) == 0
  {
    if events != [] {
      NoTerminals(events[..|events| - 1]);
    }
  }

  /** At most one terminal event, and exactly one from a finished worker that was never cancelled. */
  lemma TerminalOnce(w: Worker)
    requires Disciplined(w)
    ensures TerminalCount(w.emitted) <= 1
    ensures w.pc.Gone? && !w.cancelled ==> TerminalCount(w.emitted) == 1 && EndsTerminal(w)
  {
    if w.emitted != [] {
      NoTerminals(w.emitted[..|w.emitted| - 1]);
    }
  }

  // ----- what became of a run -----

  /** The run started at i was stopped through its handle, or a terminal event was applied to its item. */
  ghost predicate Settled(log: seq<Action>, i: nat)
    requires i < |log| && log[i].Started?
  {
    exists k :: i < k < |log| && SettledBy(log[i], log[k])
  }

  predicate SettledBy(start: Action, action: Action)
    requires start.Started?
  {
    action.id == start.id
    && ((action.StopCalled? && action.handle == start.handle)
        || (action.Queued? && (action.cause.Completed? || action.cause.WorkerFailed?)))
  }

  /** Until a run is stopped or a terminal event arrives for its item, the item runs under its handle. */
  lemma {:induction false} RunUnsettled(log: seq<Action>, i: nat)
    requires i < |log| && log[i].Started? && log[i].ok && !PhaseOf(log, log[i].id).Bad?
    ensures var phase := PhaseOf(log, log[i].id);
            || Settled(log, i)
            || ((phase.Running? || phase.Dropping?) && phase.handle == log[i].handle)
    decreases |log|
  {
    var before, last, id := log[..|log| - 1], log[|log| - 1], log[i].id;
    if i < |log| - 1 {
      assert before[i] == log[i];
      RunUnsettled(before, i);
      if Settled(before, i) {
        var k :| i < k < |before| && SettledBy(before[i], before[k]);
        assert SettledBy(log[i], log[k]);
      } else if SettledBy(log[i], last) {
        assert Settled(log, i);
      }
    }
  }

  // ----- the workers a history has started and stopped -----

  function NewWorker(id: string, host: string): Worker {
    Worker(id, host, AnnounceHost, false, [])
  }

  /** What a startRun or stopRun call does to the workers. */
  function AbsorbOne(workers: map<nat, Worker>, action: Action): map<nat, Worker> {
    match action
    case Started(id, _, host, ok, handle) =>
      if ok && handle.Some? then workers[handle.value := NewWorker(id, host)] else workers
    case StopCalled(_, _, handle, _) =>
      if handle.Some? && handle.value in workers
      then workers[handle.value := workers[handle.value].(cancelled := true)] else workers
    case _ => workers
  }

  function Absorb(workers: map<nat, Worker>, actions: seq<Action>): map<nat, Worker> {
    if actions == [] then workers
    else AbsorbOne(Absorb(workers, actions[..|actions| - 1]), actions[|actions| - 1])
  }

  /** StartRun allocates a handle for every run; no two runs share one. */
  ghost predicate FreshHandles(log: seq<Action>) {
    && (forall k :: 0 <= k < |log| && log[k].Started? && log[k].ok ==> log[k].handle.Some?)
    && (forall j, k :: 0 <= j < k < |log| && log[j].Started? && log[j].ok && log[k].Started? && log[k].ok ==>
          log[j].handle != log[k].handle)
  }

  predicate StartsHandle(action: Action, h: nat) {
    action.Started? && action.ok && action.handle == Some(h)
  }

  predicate StopsHandle(action: Action, h: nat) {
    action.StopCalled? && action.handle == Some(h)
  }

  predicate IsStartOf(action: Action, h: nat, w: Worker) {
    StartsHandle(action, h) && action.id == w.itemId && action.host == w.host
  }

  ghost predicate StartedAs(log: seq<Action>, h: nat, w: Worker) {
    exists k :: 0 <= k < |log| && IsStartOf(log[k], h, w)
  }

  /** The workers are those the history started; the ones it stopped are cancelled. */
  ghost predicate Corresponds(workers: map<nat, Worker>, log: seq<Action>) {
    && (forall h :: h in workers ==> StartedAs(log, h, workers[h]))
    && (forall k, h :: 0 <= k < |log| && StartsHandle(log[k], h) ==> h in workers)
    && (forall k, h :: 0 <= k < |log| && StopsHandle(log[k], h) && h in workers ==>
          workers[h].cancelled || StartedLater(log, k, h))
  }

  /** A stop that mentions a handle before the run that got it. */
  ghost predicate StartedLater(log: seq<Action>, k: nat, h: nat) {
    exists j :: k < j < |log| && StartsHandle(log[j], h)
  }

  lemma AbsorbOneCorresponds(workers: map<nat, Worker>, log: seq<Action>, action: Action)
    requires Corresponds(workers, log) && FreshHandles(log + [action])
    ensures Corresponds(AbsorbOne(workers, action), log + [action])
  {
    var longer, after := log + [action], AbsorbOne(workers, action);
    forall h | h in after ensures StartedAs(longer, h, after[h]) {
      if StartsHandle(action, h) {
        assert IsStartOf(longer[|log|], h, after[h]);
      } else {
        assert StartedAs(log, h, workers[h]);
        var k :| 0 <= k < |log| && IsStartOf(log[k], h, workers[h]);
        assert IsStartOf(longer[k], h, after[h]);
      }
    }
    forall k, h | 0 <= k < |longer| && StartsHandle(longer[k], h) ensures h in after {
      if k < |log| { assert StartsHandle(log[k], h); }
    }
    forall k, h | 0 <= k < |longer| && StopsHandle(longer[k], h) && h in after
      ensures after[h].cancelled || StartedLater(longer, k, h)
    {
      if k < |log| {
        assert StopsHandle(log[k], h);
        if StartsHandle(action, h) {
          assert StartsHandle(longer[|log|], h);
        } else if StartedLater(log, k, h) {
          var j :| k < j < |log| && StartsHandle(log[j], h);
          assert StartsHandle(longer[j], h);
        }
      }
    }
  }

  lemma FreshPrefix(log: seq<Action>, longer: seq<Action>)
    requires FreshHandles(longer) && log <= longer
    ensures FreshHandles(log)
  {
  }

  lemma {:induction false} AbsorbCorresponds(workers: map<nat, Worker>, log: seq<Action>, more: seq<Action>)
    requires Corresponds(workers, log) && FreshHandles(log + more)
    ensures Corresponds(Absorb(workers, more), log + more)
    decreases |more|
  {
    if more == [] {
      assert log + more == log;
    } else {
      var n := |more| - 1;
      assert log + more == (log + more[..n]) + [more[n]];
      FreshPrefix(log + more[..n], log + more);
      AbsorbCorresponds(workers, log, more[..n]);
      AbsorbOneCorresponds(Absorb(workers, more[..n]), log + more[..n], more[n]);
    }
  }

  ghost predicate AllDisciplined(workers: map<nat, Worker>) {
    forall h :: h in workers ==> Disciplined(workers[h])
  }

  lemma {:induction false} AbsorbDisciplined(workers: map<nat, Worker>, more: seq<Action>)
    requires AllDisciplined(workers)
    ensures AllDisciplined(Absorb(workers, more))
    decreases |more|
  {
    if more != [] {
      AbsorbDisciplined(workers, more[..|more| - 1]);
    }
  }

  // ----- service and workers together -----

  datatype System = System(sv: ServiceState, workers: map<nat, Worker>, managerClosed: bool, rootCancelled: bool)

  /** Close of the manager sets its flag and later cancels the root, which its caller may also have cancelled before. */
  datatype Move =
    | Serve(input: Service.Input)             // a timer, a request or close; events come from workers
    | Emit(handle: nat, event: RunEvent, now: int)
    | Proceed(handle: nat, choice: Choice)
    | MarkClosed
    | CancelRoot

  /** StartRun of a closed manager refuses every call. */
  function Closing(deps: Deps): Deps {
    deps.(start := Some((n: nat, request: StartRequest) => Err("context canceled")))
  }

  /** What the service faces: the manager's StartRun, which closing turns into a refusal. */
  function Facing(deps: Deps, sys: System): Deps {
    if sys.managerClosed then Closing(deps) else deps
  }

  lemma FacingEnvironment(deps: Deps, sys: System)
    requires Environment(deps)
    ensures Environment(Facing(deps, sys)) && Permits(Facing(deps, sys), !sys.managerClosed)
  {
  }

  function CancelAll(workers: map<nat, Worker>): map<nat, Worker> {
    map h | h in workers :: workers[h].(cancelled := true)
  }

  /** The workers catch up with what the service did while it held its mutex, under a root that may be cancelled. */
  function CatchUp(sys: System, sv: ServiceState): System
    requires |sys.sv.state.log| <= |sv.state.log|
  {
    var followed := Absorb(sys.workers, sv.state.log[|sys.sv.state.log|..]);
    sys.(sv := sv, workers := if sys.rootCancelled then CancelAll(followed) else followed)
  }

  /** The event is the one the worker waits to emit, under its item and its host. */
  predicate MayEmit(sys: System, handle: nat, event: RunEvent) {
    handle in sys.workers
    && Pending(sys.workers[handle]) == Some(event.kind)
    && event.itemId == sys.workers[handle].itemId
    && event.workerHost == sys.workers[handle].host
  }

  ghost function Move1(cfg: Config, deps: Deps, sys: System, move: Move): System
    requires WellOrdered(deps)
  {
    match move
    case Serve(input) =>
      var sv := Step(cfg, Facing(deps, sys), sys.sv, input);
      if input.Event? || |sv.state.log| < |sys.sv.state.log| then sys else CatchUp(sys, sv)
    case Emit(handle, event, now) =>
      if !MayEmit(sys, handle, event) then sys
      else
        sys.(sv := ApplyEvent(cfg, deps, sys.sv, now, event),
             workers := sys.workers[handle := Emitted(sys.workers[handle])])
    case Proceed(handle, choice) =>
      if handle !in sys.workers then sys
      else sys.(workers := sys.workers[handle := Advance(sys.workers[handle], choice)])
    case MarkClosed => sys.(managerClosed := true)
    case CancelRoot => sys.(rootCancelled := true, workers := CancelAll(sys.workers))
  }

  ghost function Play(cfg: Config, deps: Deps, sys: System, moves: seq<Move>): System
    requires WellOrdered(deps)
    decreases |moves|
  {
    if moves == [] then sys else Play(cfg, deps, Move1(cfg, deps, sys, moves[0]), moves[1..])
  }

  function NewSystem(now: int): System {
    System(NewService(now), map[], false, false)
  }

  ghost predicate SystemInv(cfg: Config, sys: System) {
    && ServiceInv(cfg, sys.sv)
    && AllDisciplined(sys.workers)
    && (FreshHandles(sys.sv.state.log) ==> Corresponds(sys.workers, sys.sv.state.log))
    && (sys.rootCancelled ==> AllCancelled(sys.workers))
  }

  ghost predicate AllCancelled(workers: map<nat, Worker>) {
    forall h :: h in workers ==> workers[h].cancelled
  }

  /** An applied event only reports and queues, so it starts and stops no worker. */
  lemma EventActions(cfg: Config, s: State, now: int, event: RunEvent)
    ensures var t := ApplyRunEvent(cfg, s, now, event);
            && s.log <= t.log
            && forall k :: |s.log| <= k < |t.log| ==> t.log[k].Reported? || t.log[k].Queued?
  {
    if event.itemId in s.running {
      var counted := Account(s, event);
      assert forall k :: |s.log| <= k < |counted.log| ==> counted.log[k].Reported?;
      ConcludeActions(cfg, counted, now, event, Stamp(s.running[event.itemId], event));
    }
  }

  lemma ConcludeActions(cfg: Config, s: State, now: int, event: RunEvent, run: Run)
    ensures var t := Conclude(cfg, s, now, event, run);
            && s.log <= t.log
            && forall k :: |s.log| <= k < |t.log| ==> t.log[k].Queued?
  {
  }

  lemma PassiveActionsCorrespond(workers: map<nat, Worker>, log: seq<Action>, longer: seq<Action>)
    requires Corresponds(workers, log) && log <= longer
    requires forall k :: |log| <= k < |longer| ==> longer[k].Reported? || longer[k].Queued?
    ensures Corresponds(workers, longer)
  {
    forall h | h in workers ensures StartedAs(longer, h, workers[h]) {
      var k :| 0 <= k < |log| && IsStartOf(log[k], h, workers[h]);
      assert IsStartOf(longer[k], h, workers[h]);
    }
    forall k, h | 0 <= k < |longer| && StopsHandle(longer[k], h) && h in workers
      ensures workers[h].cancelled || StartedLater(longer, k, h)
    {
      assert k < |log| && StopsHandle(log[k], h);
      if StartedLater(log, k, h) {
        var j :| k < j < |log| && StartsHandle(log[j], h);
        assert StartsHandle(longer[j], h);
      }
    }
  }

  /** Rewriting workers without touching their item or un-cancelling them keeps the correspondence. */
  lemma RewrittenCorrespond(workers: map<nat, Worker>, after: map<nat, Worker>, log: seq<Action>)
    requires Corresponds(workers, log) && after.Keys == workers.Keys
    requires forall h :: h in workers ==>
               after[h].itemId == workers[h].itemId && after[h].host == workers[h].host
               && (workers[h].cancelled ==> after[h].cancelled)
    ensures Corresponds(after, log)
  {
    forall h | h in after ensures StartedAs(log, h, after[h]) {
      var k :| 0 <= k < |log| && IsStartOf(log[k], h, workers[h]);
      assert IsStartOf(log[k], h, after[h]);
    }
  }

  /** The emitting worker moves on, the history grows by what the event did. */
  lemma EmitCorresponds(
    cfg: Config, deps: Deps, sv: ServiceState, workers: map<nat, Worker>, h: nat, event: RunEvent, now: int)
    requires WellOrdered(deps) && Corresponds(workers, sv.state.log) && h in workers && Pending(workers[h]).Some?
    ensures Corresponds(workers[h := Emitted(workers[h])], ApplyEvent(cfg, deps, sv, now, event).state.log)
  {
    EventKeepsLog(cfg, deps, sv, event, now);
    EventActions(cfg, sv.state, now, event);
    var after := workers[h := Emitted(workers[h])];
    RewrittenCorrespond(workers, after, sv.state.log);
    PassiveActionsCorrespond(after, sv.state.log, ApplyRunEvent(cfg, sv.state, now, event).log);
  }

  lemma EventKeepsLog(cfg: Config, deps: Deps, sv: ServiceState, event: RunEvent, now: int)
    requires WellOrdered(deps)
    ensures ApplyEvent(cfg, deps, sv, now, event).state.log == ApplyRunEvent(cfg, sv.state, now, event).log
    ensures ApplyEvent(cfg, deps, sv, now, event).closed == sv.closed
    ensures sv.state.log <= ApplyRunEvent(cfg, sv.state, now, event).log
  {
    SyncKeeps(deps, sv.(state := ApplyRunEvent(cfg, sv.state, now, event)), now);
    EventActions(cfg, sv.state, now, event);
  }

  lemma EmitSound(cfg: Config, deps: Deps, sys: System, handle: nat, event: RunEvent, now: int)
    requires SystemInv(cfg, sys) && WellOrdered(deps) && MayEmit(sys, handle, event)
    ensures SystemInv(cfg, Move1(cfg, deps, sys, Emit(handle, event, now)))
  {
    var after := ApplyEvent(cfg, deps, sys.sv, now, event);
    ApplyEventSound(cfg, deps, sys.sv, now, event);
    EventKeepsLog(cfg, deps, sys.sv, event, now);
    StaysDisciplined(sys.workers[handle], Unregisters);
    if FreshHandles(after.state.log) {
      FreshPrefix(sys.sv.state.log, after.state.log);
      EmitCorresponds(cfg, deps, sys.sv, sys.workers, handle, event, now);
    }
  }

  /** Without a successful start the workers stay the same, but for cancellations. */
  lemma {:induction false} AbsorbStops(workers: map<nat, Worker>, more: seq<Action>)
    requires forall k :: 0 <= k < |more| ==> !Starts(more[k])
    ensures var after := Absorb(workers, more);
            after.Keys == workers.Keys
            && forall h :: h in workers ==> after[h] == workers[h].(cancelled := after[h].cancelled)
                                            && (workers[h].cancelled ==> after[h].cancelled)
    decreases |more|
  {
    if more != [] {
      AbsorbStops(workers, more[..|more| - 1]);
    }
  }

  lemma CatchUpCorresponds(workers: map<nat, Worker>, log: seq<Action>, longer: seq<Action>)
    requires log <= longer && FreshHandles(longer) && (FreshHandles(log) ==> Corresponds(workers, log))
    ensures Corresponds(Absorb(workers, longer[|log|..]), longer)
  {
    FreshPrefix(log, longer);
    assert log + longer[|log|..] == longer;
    AbsorbCorresponds(workers, log, longer[|log|..]);
  }

  /** Cancelling every worker disturbs nothing else. */
  lemma CancelAllSound(workers: map<nat, Worker>, log: seq<Action>)
    ensures AllCancelled(CancelAll(workers))
    ensures AllDisciplined(workers) ==> AllDisciplined(CancelAll(workers))
    ensures Corresponds(workers, log) ==> Corresponds(CancelAll(workers), log)
  {
    if AllDisciplined(workers) {
      forall h | h in workers ensures Disciplined(workers[h].(cancelled := true)) {
        StaysDisciplined(workers[h], Unregisters);
      }
    }
    if Corresponds(workers, log) { RewrittenCorrespond(workers, CancelAll(workers), log); }
  }

  lemma CatchUpSound(cfg: Config, sys: System, sv: ServiceState)
    requires SystemInv(cfg, sys) && ServiceInv(cfg, sv) && sys.sv.state.log <= sv.state.log
    ensures SystemInv(cfg, CatchUp(sys, sv))
  {
    var more := sv.state.log[|sys.sv.state.log|..];
    AbsorbDisciplined(sys.workers, more);
    if FreshHandles(sv.state.log) {
      CatchUpCorresponds(sys.workers, sys.sv.state.log, sv.state.log);
    }
    CancelAllSound(Absorb(sys.workers, more), sv.state.log);
  }

  lemma ServeSound(cfg: Config, deps: Deps, sys: System, input: Service.Input)
    requires SystemInv(cfg, sys) && Environment(deps) && !input.Event?
    ensures SystemInv(cfg, Move1(cfg, deps, sys, Serve(input)))
  {
    var env := Facing(deps, sys);
    FacingEnvironment(deps, sys);
    StepSound(cfg, env, sys.sv, input);
    StepAdds(cfg, env, sys.sv, input, !sys.managerClosed);
    CatchUpSound(cfg, sys, Step(cfg, env, sys.sv, input));
  }

  /** A move inside the workers: none un-cancelled, none changing its item. */
  lemma RewriteSound(cfg: Config, sys: System, after: System)
    requires SystemInv(cfg, sys) && after.sv == sys.sv && after.workers.Keys == sys.workers.Keys
    requires AllDisciplined(after.workers)
    requires forall h :: h in sys.workers ==>
               after.workers[h].itemId == sys.workers[h].itemId && after.workers[h].host == sys.workers[h].host
               && (sys.workers[h].cancelled ==> after.workers[h].cancelled)
    requires after.rootCancelled ==> sys.rootCancelled || AllCancelled(after.workers)
    ensures SystemInv(cfg, after)
  {
    if FreshHandles(sys.sv.state.log) {
      RewrittenCorrespond(sys.workers, after.workers, sys.sv.state.log);
    }
  }

  lemma AdvanceStays(w: Worker, choice: Choice)
    ensures var after := Advance(w, choice);
            after.itemId == w.itemId && after.host == w.host && after.cancelled == w.cancelled
    ensures Disciplined(w) ==> Disciplined(Advance(w, choice))
  {
    if Disciplined(w) { StaysDisciplined(w, choice); }
  }

  lemma AdvancedSound(cfg: Config, sys: System, h: nat, w: Worker)
    requires SystemInv(cfg, sys) && h in sys.workers && Disciplined(w)
    requires w.itemId == sys.workers[h].itemId && w.host == sys.workers[h].host && w.cancelled == sys.workers[h].cancelled
    ensures SystemInv(cfg, sys.(workers := sys.workers[h := w]))
  {
    RewriteSound(cfg, sys, sys.(workers := sys.workers[h := w]));
  }

  lemma ProceedSound(cfg: Config, deps: Deps, sys: System, h: nat, choice: Choice)
    requires SystemInv(cfg, sys) && WellOrdered(deps)
    ensures SystemInv(cfg, Move1(cfg, deps, sys, Proceed(h, choice)))
  {
    if h in sys.workers {
      AdvanceStays(sys.workers[h], choice);
      AdvancedSound(cfg, sys, h, Advance(sys.workers[h], choice));
    }
  }

  lemma CancelRootSound(cfg: Config, deps: Deps, sys: System)
    requires SystemInv(cfg, sys) && WellOrdered(deps)
    ensures SystemInv(cfg, Move1(cfg, deps, sys, CancelRoot))
  {
    CancelAllSound(sys.workers, sys.sv.state.log);
  }

  lemma MoveSound(cfg: Config, deps: Deps, sys: System, move: Move)
    requires SystemInv(cfg, sys) && Environment(deps)
    ensures SystemInv(cfg, Move1(cfg, deps, sys, move))
  {
    if move.Serve? {
      if !move.input.Event? { ServeSound(cfg, deps, sys, move.input); }
    } else if move.Emit? {
      if MayEmit(sys, move.handle, move.event) { EmitSound(cfg, deps, sys, move.handle, move.event, move.now); }
    } else if move.Proceed? {
      ProceedSound(cfg, deps, sys, move.handle, move.choice);
    } else if move.CancelRoot? {
      CancelRootSound(cfg, deps, sys);
    }
  }

  lemma {:induction false} PlaySound(cfg: Config, deps: Deps, sys: System, moves: seq<Move>)
    requires SystemInv(cfg, sys) && Environment(deps)
    ensures SystemInv(cfg, Play(cfg, deps, sys, moves))
    decreases |moves|
  {
    if moves != [] {
      MoveSound(cfg, deps, sys, moves[0]);
      PlaySound(cfg, deps, Move1(cfg, deps, sys, moves[0]), moves[1..]);
    }
  }

  lemma SystemSound(cfg: Config, deps: Deps, start: int, moves: seq<Move>)
    requires Environment(deps)
    ensures SystemInv(cfg, Play(cfg, deps, NewSystem(start), moves))
  {
    NewServiceSound(cfg, start);
    PlaySound(cfg, deps, NewSystem(start), moves);
  }

  // ----- what follows for every interleaving -----

  /** Every worker emits at most one terminal event, as its last, and exactly one if it ends without being cancelled. */
  lemma WorkersEndOnce(cfg: Config, deps: Deps, start: int, moves: seq<Move>, h: nat)
    requires Environment(deps) && h in Play(cfg, deps, NewSystem(start), moves).workers
    ensures var w := Play(cfg, deps, NewSystem(start), moves).workers[h];
            && TerminalCount(w.emitted) <= 1
            && (forall k :: 0 <= k < |w.emitted| - 1 ==> !IsTerminal(w.emitted[k]))
            && (w.pc.Gone? && !w.cancelled ==> EndsTerminal(w))
  {
    SystemSound(cfg, deps, start, moves);
    TerminalOnce(Play(cfg, deps, NewSystem(start), moves).workers[h]);
  }

  /** Handles are fresh, so a stop of h after the start of h is a stop of that run. */
  lemma NotStopped(workers: map<nat, Worker>, log: seq<Action>, i: nat, k: nat, h: nat)
    requires Corresponds(workers, log) && FreshHandles(log) && h in workers && !workers[h].cancelled
    requires i < k < |log| && StartsHandle(log[i], h)
    ensures !StopsHandle(log[k], h)
  {
    assert !StartedLater(log, k, h);
  }

  /** A terminal event was applied to the item after the run with handle h was started for it. */
  ghost predicate Overtaken(log: seq<Action>, id: string, h: nat) {
    exists i, k :: 0 <= i < k < |log| && StartsHandle(log[i], h) && log[i].id == id && EndsItem(log[k], id)
  }

  lemma UncancelledRuns(cfg: Config, sys: System, h: nat)
    requires SystemInv(cfg, sys) && FreshHandles(sys.sv.state.log)
    requires h in sys.workers && !sys.workers[h].cancelled
    ensures var s, id := sys.sv.state, sys.workers[h].itemId;
            (id in s.running && s.running[id].handle == Some(h)) || Overtaken(s.log, id, h)
  {
    var s, id := sys.sv.state, sys.workers[h].itemId;
    var i :| 0 <= i < |s.log| && IsStartOf(s.log[i], h, sys.workers[h]);
    assert Sound(s, id);
    RunUnsettled(s.log, i);
    if Settled(s.log, i) {
      var k :| i < k < |s.log| && SettledBy(s.log[i], s.log[k]);
      NotStopped(sys.workers, s.log, i, k, h);
      assert EndsItem(s.log[k], id);
    }
  }

  /**
   No event is lost for being early: from the moment it exists, a worker that has not been cancelled finds
   its item running under its own handle, unless a terminal event was already applied to the item.
   */
  lemma NoEarlyEventDropped(cfg: Config, deps: Deps, start: int, moves: seq<Move>, h: nat)
    requires Environment(deps)
    requires var sys := Play(cfg, deps, NewSystem(start), moves);
             FreshHandles(sys.sv.state.log) && h in sys.workers && !sys.workers[h].cancelled
    ensures var sys := Play(cfg, deps, NewSystem(start), moves);
            var s, id := sys.sv.state, sys.workers[h].itemId;
            (id in s.running && s.running[id].handle == Some(h)) || Overtaken(s.log, id, h)
  {
    SystemSound(cfg, deps, start, moves);
    UncancelledRuns(cfg, Play(cfg, deps, NewSystem(start), moves), h);
  }

  /** What a terminal event does to the running item it names. */
  lemma TerminalQueues(cfg: Config, s: State, now: int, event: RunEvent)
    requires Inv(cfg, s) && event.Terminal() && event.itemId in s.running
    ensures var t := ApplyRunEvent(cfg, s, now, event);
            && event.itemId !in t.running && event.itemId in t.retrying && event.itemId in t.claimed
            && (event.kind.RunCompleted? ==> t.retrying[event.itemId].attempt == 1)
            && (event.kind.RunFailed? ==>
                  t.retrying[event.itemId].attempt == NextFailureAttempt(s.running[event.itemId].attempt))
  {
    assert Sound(s, event.itemId);
  }

  /**
   The first terminal event applied to a running item queues it with its claim kept; from then on, whatever
   the service does, every event for the item is ignored until a start of it has succeeded.
   */
  lemma FirstTerminalWins(
    cfg: Config, deps: Deps, sv: ServiceState, now: int, event: RunEvent, inputs: seq<Service.Input>,
    later: RunEvent, laterNow: int)
    requires ServiceInv(cfg, sv) && Environment(deps) && event.Terminal() && event.itemId in sv.state.running
    requires later.itemId == event.itemId
    requires var ended := ApplyEvent(cfg, deps, sv, now, event);
             var log := RunFrom(cfg, deps, ended, inputs).state.log;
             forall k :: |ended.state.log| <= k < |log| ==> !IsStart(log[k], event.itemId)
    ensures var id, ended := event.itemId, ApplyEvent(cfg, deps, sv, now, event);
            && id !in ended.state.running && id in ended.state.retrying && id in ended.state.claimed
            && (event.kind.RunCompleted? ==> ended.state.retrying[id].attempt == 1)
            && (event.kind.RunFailed? ==>
                  ended.state.retrying[id].attempt == NextFailureAttempt(sv.state.running[id].attempt))
    ensures var s := RunFrom(cfg, deps, ApplyEvent(cfg, deps, sv, now, event), inputs).state;
            event.itemId !in s.running && ApplyRunEvent(cfg, s, laterNow, later) == s
  {
    var id, ended := event.itemId, ApplyEvent(cfg, deps, sv, now, event);
    TerminalQueues(cfg, sv.state, now, event);
    SyncKeeps(deps, sv.(state := ApplyRunEvent(cfg, sv.state, now, event)), now);
    ApplyEventSound(cfg, deps, sv, now, event);
    RunSound(cfg, deps, ended, inputs);
    Tokens.LogOnlyGrows(cfg, deps, ended, inputs);
    NotRunningOn(cfg, ended.state, RunFrom(cfg, deps, ended, inputs).state, id);
  }

  lemma NotRunningOn(cfg: Config, s: State, t: State, id: string)
    requires Inv(cfg, s) && Inv(cfg, t) && s.log <= t.log && id !in s.running
    requires forall k :: |s.log| <= k < |t.log| ==> !IsStart(t.log[k], id)
    ensures id !in t.running
  {
    assert Sound(s, id) && Sound(t, id);
    assert t.log[..|s.log|] == s.log;
    IdleUntilStart(t.log, |s.log|, id);
  }

  /** Every live worker's events carry the host it was admitted on. */
  lemma WorkersEchoTheirHost(cfg: Config, deps: Deps, start: int, moves: seq<Move>, h: nat, event: RunEvent)
    requires Environment(deps)
    requires var sys := Play(cfg, deps, NewSystem(start), moves);
             FreshHandles(sys.sv.state.log) && MayEmit(sys, h, event)
    ensures var log := Play(cfg, deps, NewSystem(start), moves).sv.state.log;
            exists i :: 0 <= i < |log| && StartsHandle(log[i], h)
                        && log[i].id == event.itemId && log[i].host == event.workerHost
  {
    SystemSound(cfg, deps, start, moves);
    var sys := Play(cfg, deps, NewSystem(start), moves);
    var i :| 0 <= i < |sys.sv.state.log| && IsStartOf(sys.sv.state.log[i], h, sys.workers[h]);
    assert StartsHandle(sys.sv.state.log[i], h);
  }

  // ----- after the manager has closed -----

  /** The same workers; those that are gone have emitted nothing more. */
  predicate NoneReturns(before: map<nat, Worker>, after: map<nat, Worker>) {
    && after.Keys == before.Keys
    && forall h :: h in before && before[h].pc.Gone? ==> after[h].pc.Gone? && after[h].emitted == before[h].emitted
  }

  lemma ClosedMoveQuiet(cfg: Config, deps: Deps, sys: System, move: Move)
    requires sys.managerClosed && Environment(deps)
    ensures Move1(cfg, deps, sys, move).managerClosed && NoneReturns(sys.workers, Move1(cfg, deps, sys, move).workers)
  {
    if move.Serve? && !move.input.Event? {
      var env := Facing(deps, sys);
      var sv := Step(cfg, env, sys.sv, move.input);
      FacingEnvironment(deps, sys);
      StepAdds(cfg, env, sys.sv, move.input, false);
      AbsorbStops(sys.workers, sv.state.log[|sys.sv.state.log|..]);
    }
  }

  /**
   Once the manager is closed, whether or not the service is, no worker appears and none that is gone comes
   back or emits: the live workers only become fewer, and when none is left that stays so.
   */
  lemma {:induction false} QuietAfterManagerClose(cfg: Config, deps: Deps, sys: System, moves: seq<Move>)
    requires sys.managerClosed && Environment(deps)
    ensures Play(cfg, deps, sys, moves).managerClosed && NoneReturns(sys.workers, Play(cfg, deps, sys, moves).workers)
    decreases |moves|
  {
    if moves != [] {
      ClosedMoveQuiet(cfg, deps, sys, moves[0]);
      QuietAfterManagerClose(cfg, deps, Move1(cfg, deps, sys, moves[0]), moves[1..]);
    }
  }

  /** Once the manager is closing every worker is cancelled, also one its map of handles no longer lists. */
  lemma ClosingCancelsAll(cfg: Config, deps: Deps, start: int, moves: seq<Move>, h: nat)
    requires Environment(deps)
    requires var sys := Play(cfg, deps, NewSystem(start), moves); sys.rootCancelled && h in sys.workers
    ensures Play(cfg, deps, NewSystem(start), moves).workers[h].cancelled
  {
    SystemSound(cfg, deps, start, moves);
  }
}
