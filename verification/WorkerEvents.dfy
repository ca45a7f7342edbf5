/**
 What a worker says and when: the events of every worker of every interleaving come in one order, and how its
 loop ended decides what becomes of its item.
 */
module WorkerEvents {
  import opened Domain
  import opened Scheduler
  import opened Safety
  import opened Service
  import opened ServiceSafety
  import opened Runs
  import opened Workers
  import opened WorkerRounds
  import Events

  // ----- the order of events -----

  predicate IsWork(kind: EventKind) {
    kind == CodexEventReceived || kind == TurnCompleted
  }

  /** The host, the workspace and its path, and then only work. */
  ghost predicate AtWork(events: seq<EventKind>) {
    && [RunnerHostSelected, WorkspaceCreated, WorkspacePathDiscovered] <= events
    && forall k :: 3 <= k < |events| ==> IsWork(events[k])
  }

  /** Work, and at its end completion or failure; or only the host, and a failure to make the workspace. */
  ghost predicate Finished(events: seq<EventKind>) {
    || events == [RunnerHostSelected, RunFailed]
    || (events != [] && AtWork(events[..|events| - 1])
        && (events[|events| - 1] == RunCompleted || events[|events| - 1] == RunFailed))
  }

  /** A beginning of what a worker may say. */
  ghost predicate InOrder(events: seq<EventKind>) {
    || events <= [RunnerHostSelected, WorkspaceCreated] || AtWork(events) || Finished(events)
  }

  /** Where the worker stands is where its events have got to. */
  ghost predicate Scripted(w: Worker) {
    match w.pc
    case AnnounceHost => w.emitted == []
    case CreateWorkspace => w.emitted == [RunnerHostSelected]
    case AnnounceCreated => w.emitted == [RunnerHostSelected]
    case AnnouncePath => w.emitted == [RunnerHostSelected, WorkspaceCreated]
    case Working => AtWork(w.emitted)
    case EmitWork(kind) => IsWork(kind) && AtWork(w.emitted)
    case EmitTerminal(kind) =>
      (kind == RunFailed && w.emitted == [RunnerHostSelected])
      || ((kind == RunFailed || kind == RunCompleted) && AtWork(w.emitted))
    case _ => AtWork(w.emitted) || Finished(w.emitted)
  }

  lemma ScriptedInOrder(w: Worker)
    requires Scripted(w)
    ensures InOrder(w.emitted)
  {
  }

  lemma StaysScripted(w: Worker, choice: Choice)
    requires Scripted(w)
    ensures Scripted(Advance(w, choice)) && Scripted(w.(cancelled := true))
  {
  }

  lemma EmittedScripted(w: Worker)
    requires Scripted(w) && Pending(w).Some?
    ensures Scripted(Emitted(w))
  {
    var after := Emitted(w).emitted;
    assert after[..|after| - 1] == w.emitted;
    if w.pc.AnnouncePath? {
      assert after == [RunnerHostSelected, WorkspaceCreated, WorkspacePathDiscovered];
    } else if w.pc.AnnounceCreated? {
      assert after == [RunnerHostSelected, WorkspaceCreated];
    } else if w.pc.AnnounceHost? {
      assert after == [RunnerHostSelected];
    } else if w.pc.EmitTerminal? && w.emitted == [RunnerHostSelected] {
      assert after == [RunnerHostSelected, RunFailed];
    }
  }

  ghost predicate AllScripted(workers: map<nat, Worker>) {
    forall h :: h in workers ==> Scripted(workers[h])
  }

  lemma {:induction false} AbsorbScripted(workers: map<nat, Worker>, more: seq<Action>)
    requires AllScripted(workers)
    ensures AllScripted(Absorb(workers, more))
    decreases |more|
  {
    if more != [] {
      AbsorbScripted(workers, more[..|more| - 1]);
    }
  }

  lemma CancelledScripted(workers: map<nat, Worker>)
    requires AllScripted(workers)
    ensures AllScripted(CancelAll(workers))
  {
  }

  lemma CatchUpScripted(sys: System, sv: ServiceState)
    requires AllScripted(sys.workers) && |sys.sv.state.log| <= |sv.state.log|
    ensures AllScripted(CatchUp(sys, sv).workers)
  {
    var followed := Absorb(sys.workers, sv.state.log[|sys.sv.state.log|..]);
    AbsorbScripted(sys.workers, sv.state.log[|sys.sv.state.log|..]);
    CancelledScripted(followed);
  }

  lemma MoveScripted(cfg: Config, deps: Deps, sys: System, move: Move)
    requires AllScripted(sys.workers) && WellOrdered(deps)
    ensures AllScripted(Move1(cfg, deps, sys, move).workers)
  {
    match move
    case Serve(input) =>
      var sv := Step(cfg, Facing(deps, sys), sys.sv, input);
      if |sys.sv.state.log| <= |sv.state.log| { CatchUpScripted(sys, sv); }
    case Emit(handle, event, _) => if MayEmit(sys, handle, event) { EmittedScripted(sys.workers[handle]); }
    case Proceed(handle, choice) => if handle in sys.workers { StaysScripted(sys.workers[handle], choice); }
    case MarkClosed =>
    case CancelRoot => CancelledScripted(sys.workers);
  }

  lemma {:induction false} PlayScripted(cfg: Config, deps: Deps, sys: System, moves: seq<Move>)
    requires AllScripted(sys.workers) && WellOrdered(deps)
    ensures AllScripted(Play(cfg, deps, sys, moves).workers)
    decreases |moves|
  {
    if moves != [] {
      MoveScripted(cfg, deps, sys, moves[0]);
      PlayScripted(cfg, deps, Move1(cfg, deps, sys, moves[0]), moves[1..]);
    }
  }

  /** In every interleaving every worker names its host, its workspace and the path, then works, and ends at most once. */
  lemma WorkersSpeakInOrder(cfg: Config, deps: Deps, start: int, moves: seq<Move>, h: nat)
    requires WellOrdered(deps) && h in Play(cfg, deps, NewSystem(start), moves).workers
    ensures InOrder(Play(cfg, deps, NewSystem(start), moves).workers[h].emitted)
  {
    PlayScripted(cfg, deps, NewSystem(start), moves);
    ScriptedInOrder(Play(cfg, deps, NewSystem(start), moves).workers[h]);
  }

  // ----- how a worker ends -----

  /** A worker whose loop has ended has its success or failure to report; a cancelled one has nothing to say. */
  lemma LoopEndIsReported(w: Worker, ok: bool)
    requires w.pc == Working
    ensures Pending(Advance(w, LoopEnds(ok)))
            == if w.cancelled then None else if ok then Some(RunCompleted) else Some(RunFailed)
  {
  }

  /** A workspace that cannot be made is reported as a failure, even by a cancelled worker. */
  lemma CreateFailureIsReported(w: Worker)
    requires w.pc == CreateWorkspace
    ensures Pending(Advance(w, CreateFails)) == Some(RunFailed)
    ensures Pending(Advance(w, CreateSucceeds)) == Some(WorkspaceCreated)
  {
  }

  /** The retry that a worker's end leaves: attempt 1 a second later after success, the next attempt after failure. */
  ghost predicate RetriedFor(cfg: Config, run: Run, entry: Retry, now: int, ok: bool) {
    if ok then entry.attempt == 1 && entry.dueAt == now + 1_000_000_000 && entry.cause == Completed
    else
      && Events.IsNextAttempt(run.attempt, entry.attempt) && entry.cause.WorkerFailed?
      && entry.dueAt == now + Scheduler.Backoff.FailureRetryDelay(entry.attempt, cfg.maxRetryBackoff)
  }

  /** The run is over: its item has left `running` with its claim kept, and is queued so. */
  ghost predicate Ended(cfg: Config, run: Run, t: State, id: string, now: int, ok: bool) {
    id !in t.running && id in t.claimed && id in t.retrying && RetriedFor(cfg, run, t.retrying[id], now, ok)
  }

  /** The end of an uncancelled worker's loop, once reported, takes its item out of `running` and queues it so. */
  lemma EndReachesScheduler(
    cfg: Config, deps: Deps, sys: System, h: nat, ok: bool, event: RunEvent, now: int)
    requires SystemInv(cfg, sys) && WellOrdered(deps) && h in sys.workers
    requires sys.workers[h].pc == Working && !sys.workers[h].cancelled && sys.workers[h].itemId in sys.sv.state.running
    requires event.itemId == sys.workers[h].itemId && event.workerHost == sys.workers[h].host
    requires event.kind == if ok then RunCompleted else RunFailed
    ensures Ended(cfg, sys.sv.state.running[event.itemId],
                  Play(cfg, deps, sys, [Proceed(h, LoopEnds(ok))] + [Emit(h, event, now)]).sv.state,
                  event.itemId, now, ok)
  {
    var over := Move1(cfg, deps, sys, Proceed(h, LoopEnds(ok)));
    LoopEndIsReported(sys.workers[h], ok);
    PlaySingle(cfg, deps, sys, Proceed(h, LoopEnds(ok)));
    PlayAppend(cfg, deps, sys, [Proceed(h, LoopEnds(ok))], [Emit(h, event, now)]);
    PlaySingle(cfg, deps, over, Emit(h, event, now));
    assert MayEmit(over, h, event);
    EndIsApplied(cfg, deps, sys.sv, event, now, ok);
  }

  lemma CompletionEnds(cfg: Config, s: State, event: RunEvent, now: int)
    requires event.itemId in s.running && event.itemId in s.claimed
    requires s.running[event.itemId].item.id == event.itemId && event.kind == RunCompleted
    ensures Ended(cfg, s.running[event.itemId], ApplyRunEvent(cfg, s, now, event), event.itemId, now, true)
  {
    var run := s.running[event.itemId];
    Events.CompletionContinues(cfg, s, now, event,
                               if event.workerHost != "" then event.workerHost else run.workerHost,
                               if event.workspacePath != "" then event.workspacePath else run.workspacePath);
  }

  lemma FailureEnds(cfg: Config, s: State, event: RunEvent, now: int)
    requires event.itemId in s.running && event.itemId in s.claimed
    requires s.running[event.itemId].item.id == event.itemId && event.kind == RunFailed
    ensures Ended(cfg, s.running[event.itemId], ApplyRunEvent(cfg, s, now, event), event.itemId, now, false)
  {
    var run := s.running[event.itemId];
    Events.FailureRetries(cfg, s, now, event,
                          if event.workerHost != "" then event.workerHost else run.workerHost,
                          if event.workspacePath != "" then event.workspacePath else run.workspacePath,
                          if run.attempt > 0 then run.attempt + 1 else 1,
                          if event.error.Some? then event.error.value else event.message);
  }

  lemma EndIsApplied(cfg: Config, deps: Deps, sv: ServiceState, event: RunEvent, now: int, ok: bool)
    requires Inv(cfg, sv.state) && WellOrdered(deps) && event.itemId in sv.state.running
    requires event.kind == if ok then RunCompleted else RunFailed
    ensures Ended(cfg, sv.state.running[event.itemId], ApplyEvent(cfg, deps, sv, now, event).state, event.itemId, now, ok)
  {
    assert Sound(sv.state, event.itemId);
    if ok { CompletionEnds(cfg, sv.state, event, now); } else { FailureEnds(cfg, sv.state, event, now); }
    SyncKeeps(deps, sv.(state := ApplyRunEvent(cfg, sv.state, now, event)), now);
  }
}
