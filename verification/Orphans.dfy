/**
 Workers that work although their item no longer runs under their handle. An item has at most one working
 worker as long as none is orphaned, and one is orphaned exactly when a terminal event of another worker is
 applied to the item while its own worker works: events are matched by item, not by run.
 */
module Orphans {
  import opened Domain
  import opened Scheduler
  import opened Lifecycle
  import opened Safety
  import opened Service
  import opened ServiceSafety
  import opened Runs
  import opened Additions
  import opened Workers
  import HostCapacity
  import JointHosts

  /** In the turn loop or before it, or with a last event still to emit. */
  predicate IsWorking(w: Worker) {
    !w.cancelled && !w.pc.Leaving? && !w.pc.Gone?
  }

  /** Every working worker of the item is the one the item runs under. */
  ghost predicate NoOrphan(sys: System, id: string) {
    forall h :: h in sys.workers && IsWorking(sys.workers[h]) && sys.workers[h].itemId == id ==>
      id in sys.sv.state.running && sys.sv.state.running[id].handle == Some(h)
  }

  /** The item runs under the handle of a worker of it that works. */
  predicate RunsWorking(sys: System, id: string) {
    id in sys.sv.state.running
    && var handle := sys.sv.state.running[id].handle;
       handle.Some? && handle.value in sys.workers
       && sys.workers[handle.value].itemId == id && IsWorking(sys.workers[handle.value])
  }

  /** A terminal event for an item whose own worker works, from another worker. */
  predicate EndsWorkingRun(sys: System, move: Move, id: string) {
    move.Emit? && MayEmit(sys, move.handle, move.event) && move.event.Terminal() && move.event.itemId == id
    && RunsWorking(sys, id) && sys.sv.state.running[id].handle != Some(move.handle)
  }

  /** Only one worker of the item works at a time, then. */
  lemma OneWorks(sys: System, id: string, g: nat, h: nat)
    requires NoOrphan(sys, id) && g in sys.workers && h in sys.workers
    requires IsWorking(sys.workers[g]) && IsWorking(sys.workers[h]) && sys.workers[g].itemId == sys.workers[h].itemId == id
    ensures g == h
  {
  }

  // ----- steps of the service -----

  /** Where the history grows without ending the item, an overtaken run was overtaken before. */
  lemma OvertakenBefore(log: seq<Action>, longer: seq<Action>, id: string, h: nat)
    requires log <= longer && Overtaken(longer, id, h)
    requires forall k :: |log| <= k < |longer| ==> !EndsItem(longer[k], id)
    ensures Overtaken(log, id, h)
  {
    var i, k :| 0 <= i < k < |longer| && StartsHandle(longer[i], h) && longer[i].id == id && EndsItem(longer[k], id);
    assert StartsHandle(log[i], h) && EndsItem(log[k], id);
  }

  lemma {:induction false} AbsorbKeepsPlace(workers: map<nat, Worker>, more: seq<Action>, h: nat)
    requires h in workers && forall k :: 0 <= k < |more| ==> !StartsHandle(more[k], h)
    ensures h in Absorb(workers, more)
    ensures Absorb(workers, more)[h].pc == workers[h].pc && Absorb(workers, more)[h].itemId == workers[h].itemId
    ensures workers[h].cancelled ==> Absorb(workers, more)[h].cancelled
    decreases |more|
  {
    if more != [] {
      AbsorbKeepsPlace(workers, more[..|more| - 1], h);
    }
  }

  /** A handle is not given out again. */
  lemma NotRestarted(log: seq<Action>, longer: seq<Action>, i: nat, h: nat)
    requires log <= longer && FreshHandles(longer) && i < |log| && StartsHandle(log[i], h)
    ensures forall j :: 0 <= j < |longer[|log|..]| ==> !StartsHandle(longer[|log|..][j], h)
  {
    forall j | 0 <= j < |longer[|log|..]| ensures !StartsHandle(longer[|log|..][j], h) {
      assert longer[|log|..][j] == longer[|log| + j] && longer[i] == log[i];
    }
  }

  /** A worker overtaken after a step of the service was there before it, no further on, and overtaken. */
  lemma OvertakenInCatchUp(
    workers: map<nat, Worker>, log: seq<Action>, longer: seq<Action>, h: nat)
    requires log <= longer && FreshHandles(longer) && Corresponds(workers, log)
    requires forall k, id :: |log| <= k < |longer| ==> !EndsItem(longer[k], id)
    requires var after := Absorb(workers, longer[|log|..]);
             h in after && IsWorking(after[h]) && Overtaken(longer, after[h].itemId, h)
    ensures h in workers && IsWorking(workers[h]) && workers[h].itemId == Absorb(workers, longer[|log|..])[h].itemId
    ensures Overtaken(log, workers[h].itemId, h)
  {
    var id := Absorb(workers, longer[|log|..])[h].itemId;
    OvertakenBefore(log, longer, id, h);
    var i, k :| 0 <= i < k < |log| && StartsHandle(log[i], h) && log[i].id == id && EndsItem(log[k], id);
    NotRestarted(log, longer, i, h);
    AbsorbKeepsPlace(workers, longer[|log|..], h);
  }

  /** The start behind a running item, under the handle it runs with. */
  lemma {:induction false} StartBehindHandle(log: seq<Action>, id: string) returns (i: nat)
    requires PhaseOf(log, id).Running?
    ensures i < |log| && IsStart(log[i], id) && log[i].handle == PhaseOf(log, id).handle
    ensures forall k :: i < k < |log| ==> !IsLeave(log[k], id)
    decreases |log|
  {
    var last := log[|log| - 1];
    if IsStart(last, id) {
      i := |log| - 1;
    } else {
      i := StartBehindHandle(log[..|log| - 1], id);
    }
  }

  /** What runs has not been overtaken. */
  lemma RunningNotOvertaken(log: seq<Action>, id: string, h: nat)
    requires FreshHandles(log) && PhaseOf(log, id).Running? && PhaseOf(log, id).handle == Some(h)
    ensures !Overtaken(log, id, h)
  {
    var j := StartBehindHandle(log, id);
    if i, k :| 0 <= i < k < |log| && StartsHandle(log[i], h) && log[i].id == id && EndsItem(log[k], id) {
      JointHosts.SameStart(log, i, j, h);
      assert IsLeave(log[k], id);
    }
  }

  lemma NotOvertaken(cfg: Config, sys: System, h: nat)
    requires SystemInv(cfg, sys) && FreshHandles(sys.sv.state.log) && h in sys.workers && IsWorking(sys.workers[h])
    requires NoOrphan(sys, sys.workers[h].itemId)
    ensures !Overtaken(sys.sv.state.log, sys.workers[h].itemId, h)
  {
    assert Sound(sys.sv.state, sys.workers[h].itemId);
    RunningNotOvertaken(sys.sv.state.log, sys.workers[h].itemId, h);
  }

  /** A worker that works after a step of the service has not been overtaken in it, and so its item runs under it. */
  lemma ServedWorkerRuns(cfg: Config, sys: System, sv: ServiceState, h: nat)
    requires sys.sv.state.log <= sv.state.log && SystemInv(cfg, sys) && SystemInv(cfg, CatchUp(sys, sv))
    requires FreshHandles(sv.state.log) && !sys.rootCancelled
    requires forall k, id :: |sys.sv.state.log| <= k < |sv.state.log| ==> !EndsItem(sv.state.log[k], id)
    requires var after := CatchUp(sys, sv); h in after.workers && IsWorking(after.workers[h])
    requires NoOrphan(sys, CatchUp(sys, sv).workers[h].itemId)
    ensures var id := CatchUp(sys, sv).workers[h].itemId;
            id in sv.state.running && sv.state.running[id].handle == Some(h)
  {
    var after, log := CatchUp(sys, sv), sys.sv.state.log;
    FreshPrefix(log, sv.state.log);
    UncancelledRuns(cfg, after, h);
    if Overtaken(sv.state.log, after.workers[h].itemId, h) {
      OvertakenInCatchUp(sys.workers, log, sv.state.log, h);
      NotOvertaken(cfg, sys, h);
    }
  }

  lemma ServeOrphansNone(cfg: Config, deps: Deps, sys: System, input: Service.Input, id: string)
    requires SystemInv(cfg, sys) && Environment(deps) && NoOrphan(sys, id)
    requires FreshHandles(Move1(cfg, deps, sys, Serve(input)).sv.state.log)
    ensures NoOrphan(Move1(cfg, deps, sys, Serve(input)), id)
  {
    var env := Facing(deps, sys);
    var sv := Step(cfg, env, sys.sv, input);
    if !input.Event? && !sys.rootCancelled {
      FacingEnvironment(deps, sys);
      StepAdds(cfg, env, sys.sv, input, !sys.managerClosed);
      ServeSound(cfg, deps, sys, input);
      var after := CatchUp(sys, sv);
      forall h | h in after.workers && IsWorking(after.workers[h]) && after.workers[h].itemId == id
        ensures id in sv.state.running && sv.state.running[id].handle == Some(h)
      {
        ServedWorkerRuns(cfg, sys, sv, h);
      }
    }
  }

  // ----- events -----

  /** A worker still working after an event is another one than its terminal emitter. */
  lemma EmitterLeaves(sys: System, h: nat, event: RunEvent)
    requires AllDisciplined(sys.workers) && MayEmit(sys, h, event) && event.Terminal()
    ensures !IsWorking(Emitted(sys.workers[h]))
  {
  }

  /** A worker that has emitted and still works was working before. */
  lemma WorkedBefore(w: Worker)
    requires Pending(w).Some? && IsWorking(Emitted(w))
    ensures IsWorking(w)
  {
  }

  /** What an event does to the run of the item. */
  lemma EventOnRun(cfg: Config, deps: Deps, sv: ServiceState, event: RunEvent, now: int, id: string)
    requires WellOrdered(deps)
    ensures var before, after := sv.state.running, ApplyEvent(cfg, deps, sv, now, event).state.running;
            if event.Terminal() && event.itemId == id then id !in after
            else (id in after <==> id in before) && (id in before ==> after[id].handle == before[id].handle)
  {
    HostCapacity.EventOnRunning(cfg, sv.state, now, event);
    SyncKeeps(deps, sv.(state := ApplyRunEvent(cfg, sv.state, now, event)), now);
  }

  /** An event orphans a worker exactly when it ends a working run. */
  lemma EmitOrphansExactly(cfg: Config, deps: Deps, sys: System, handle: nat, event: RunEvent, now: int, id: string)
    requires AllDisciplined(sys.workers) && WellOrdered(deps) && NoOrphan(sys, id) && MayEmit(sys, handle, event)
    ensures var move := Emit(handle, event, now);
            NoOrphan(Move1(cfg, deps, sys, move), id) <==> !EndsWorkingRun(sys, move, id)
  {
    var after := Move1(cfg, deps, sys, Emit(handle, event, now));
    EventOnRun(cfg, deps, sys.sv, event, now, id);
    if event.Terminal() { EmitterLeaves(sys, handle, event); }
    if EndsWorkingRun(sys, Emit(handle, event, now), id) {
      var own := sys.sv.state.running[id].handle.value;
      assert own in after.workers && IsWorking(after.workers[own]) && after.workers[own].itemId == id;
    } else {
      forall h | h in after.workers && IsWorking(after.workers[h]) && after.workers[h].itemId == id
        ensures id in after.sv.state.running && after.sv.state.running[id].handle == Some(h)
      {
        if h == handle { WorkedBefore(sys.workers[h]); }
      }
    }
  }

  // ----- every move and every run -----

  lemma OnlyForward(w: Worker, choice: Choice)
    ensures Advance(w, choice).itemId == w.itemId && (IsWorking(Advance(w, choice)) ==> IsWorking(w))
  {
  }

  /** From a state without an orphan of the item a move orphans a worker exactly when it ends its working run. */
  lemma MoveOrphansExactly(cfg: Config, deps: Deps, sys: System, move: Move, id: string)
    requires SystemInv(cfg, sys) && Environment(deps) && NoOrphan(sys, id)
    requires FreshHandles(Move1(cfg, deps, sys, move).sv.state.log)
    ensures NoOrphan(Move1(cfg, deps, sys, move), id) <==> !EndsWorkingRun(sys, move, id)
  {
    match move
    case Serve(input) => ServeOrphansNone(cfg, deps, sys, input, id);
    case Emit(handle, event, now) =>
      if MayEmit(sys, handle, event) { EmitOrphansExactly(cfg, deps, sys, handle, event, now, id); }
    case Proceed(h, choice) => if h in sys.workers { OnlyForward(sys.workers[h], choice); }
    case _ =>
  }

  ghost predicate NeverOrphaned(cfg: Config, deps: Deps, sys: System, moves: seq<Move>, id: string)
    requires WellOrdered(deps)
    decreases |moves|
  {
    && NoOrphan(sys, id)
    && (moves != [] ==> NeverOrphaned(cfg, deps, Move1(cfg, deps, sys, moves[0]), moves[1..], id))
  }

  ghost predicate NoneEnded(cfg: Config, deps: Deps, sys: System, moves: seq<Move>, id: string)
    requires WellOrdered(deps)
    decreases |moves|
  {
    moves != [] ==>
      !EndsWorkingRun(sys, moves[0], id) && NoneEnded(cfg, deps, Move1(cfg, deps, sys, moves[0]), moves[1..], id)
  }

  lemma {:induction false} OrphansAlong(cfg: Config, deps: Deps, sys: System, moves: seq<Move>, id: string)
    requires SystemInv(cfg, sys) && Environment(deps) && NoOrphan(sys, id)
    requires FreshHandles(Play(cfg, deps, sys, moves).sv.state.log)
    ensures NeverOrphaned(cfg, deps, sys, moves, id) <==> NoneEnded(cfg, deps, sys, moves, id)
    ensures NoneEnded(cfg, deps, sys, moves, id) ==> NoOrphan(Play(cfg, deps, sys, moves), id)
    decreases |moves|
  {
    if moves != [] {
      var next := Move1(cfg, deps, sys, moves[0]);
      JointHosts.PlayGrows(cfg, deps, next, moves[1..]);
      FreshPrefix(next.sv.state.log, Play(cfg, deps, sys, moves).sv.state.log);
      MoveOrphansExactly(cfg, deps, sys, moves[0], id);
      MoveSound(cfg, deps, sys, moves[0]);
      if NoOrphan(next, id) {
        OrphansAlong(cfg, deps, next, moves[1..], id);
      }
    }
  }

  /**
   In every interleaving an item's working workers are throughout the one it runs under exactly when no
   terminal event of another worker is ever applied to the item while its own worker works.
   */
  lemma NeverOrphanedExactly(cfg: Config, deps: Deps, start: int, moves: seq<Move>, id: string)
    requires Environment(deps) && FreshHandles(Play(cfg, deps, NewSystem(start), moves).sv.state.log)
    ensures NeverOrphaned(cfg, deps, NewSystem(start), moves, id) <==> NoneEnded(cfg, deps, NewSystem(start), moves, id)
  {
    NewServiceSound(cfg, start);
    OrphansAlong(cfg, deps, NewSystem(start), moves, id);
  }

  /** Two workers of one item that work at the same time mean that such an event came before. */
  lemma TwoWorkersMeanEndedRun(cfg: Config, deps: Deps, start: int, moves: seq<Move>, g: nat, h: nat)
    requires Environment(deps) && g != h
    requires var sys := Play(cfg, deps, NewSystem(start), moves);
             && FreshHandles(sys.sv.state.log) && g in sys.workers && h in sys.workers
             && IsWorking(sys.workers[g]) && IsWorking(sys.workers[h]) && sys.workers[g].itemId == sys.workers[h].itemId
    ensures var id := Play(cfg, deps, NewSystem(start), moves).workers[h].itemId;
            !NoneEnded(cfg, deps, NewSystem(start), moves, id)
  {
    var sys := Play(cfg, deps, NewSystem(start), moves);
    var id := sys.workers[h].itemId;
    NewServiceSound(cfg, start);
    OrphansAlong(cfg, deps, NewSystem(start), moves, id);
    if NoOrphan(sys, id) { OneWorks(sys, id, g, h); }
  }
}
