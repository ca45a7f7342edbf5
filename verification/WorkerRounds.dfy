/** Runs of service and workers in which for a while no worker is heard: what witness runs of the two are made of. */
module WorkerRounds {
  import opened Domain
  import opened Scheduler
  import opened Safety
  import opened Service
  import opened ServiceSafety
  import opened Runs
  import opened Rounds
  import opened Additions
  import opened Workers

  lemma {:induction false} PlayAppend(cfg: Config, deps: Deps, sys: System, a: seq<Move>, b: seq<Move>)
    requires WellOrdered(deps)
    ensures Play(cfg, deps, sys, a + b) == Play(cfg, deps, Play(cfg, deps, sys, a), b)
    decreases |a|
  {
    if a == [] {
      assert a + b == b;
    } else {
      assert (a + b)[0] == a[0] && (a + b)[1..] == a[1..] + b;
      PlayAppend(cfg, deps, Move1(cfg, deps, sys, a[0]), a[1..], b);
    }
  }

  lemma PlaySingle(cfg: Config, deps: Deps, sys: System, move: Move)
    requires WellOrdered(deps)
    ensures Play(cfg, deps, sys, [move]) == Move1(cfg, deps, sys, move)
  {
    assert [move][1..] == [];
  }

  // ----- runs that the clock allows -----

  /** The time of a move that reads the clock. */
  function MoveTime(move: Move, clock: int): int {
    match move
    case Serve(input) => TimeOf(input, clock)
    case Emit(_, _, now) => now
    case _ => clock
  }

  function PlayEnd(moves: seq<Move>, clock: int): int {
    if moves == [] then clock else PlayEnd(moves[1..], MoveTime(moves[0], clock))
  }

  /** The clock never goes back, and no callback is delivered before its timer is due. */
  ghost predicate TimelyPlay(cfg: Config, deps: Deps, sys: System, moves: seq<Move>, clock: int)
    requires WellOrdered(deps)
    decreases |moves|
  {
    moves != [] ==>
      var at := MoveTime(moves[0], clock);
      && clock <= at
      && (moves[0].Serve? && moves[0].input.Deliver? && moves[0].input.timer in sys.sv.timers ==>
            sys.sv.timers[moves[0].input.timer].due <= at)
      && TimelyPlay(cfg, deps, Move1(cfg, deps, sys, moves[0]), moves[1..], at)
  }

  lemma {:induction false} TimelyPlayAppend(
    cfg: Config, deps: Deps, sys: System, a: seq<Move>, b: seq<Move>, clock: int)
    requires WellOrdered(deps) && TimelyPlay(cfg, deps, sys, a, clock)
    requires TimelyPlay(cfg, deps, Play(cfg, deps, sys, a), b, PlayEnd(a, clock))
    ensures TimelyPlay(cfg, deps, sys, a + b, clock) && PlayEnd(a + b, clock) == PlayEnd(b, PlayEnd(a, clock))
    decreases |a|
  {
    if a == [] {
      assert a + b == b;
    } else {
      assert (a + b)[0] == a[0] && (a + b)[1..] == a[1..] + b;
      TimelyPlayAppend(cfg, deps, Move1(cfg, deps, sys, a[0]), a[1..], b, MoveTime(a[0], clock));
    }
  }

  lemma TimelySingle(cfg: Config, deps: Deps, sys: System, move: Move, clock: int)
    requires WellOrdered(deps) && !move.Serve? && clock <= MoveTime(move, clock)
    ensures TimelyPlay(cfg, deps, sys, [move], clock) && PlayEnd([move], clock) == MoveTime(move, clock)
  {
    assert [move][1..] == [];
    assert PlayEnd([move], clock) == PlayEnd([], MoveTime(move, clock));
  }

  // ----- while no worker is heard -----

  function Serves(inputs: seq<Service.Input>): seq<Move> {
    if inputs == [] then [] else [Serve(inputs[0])] + Serves(inputs[1..])
  }

  lemma {:induction false} AbsorbAppend(workers: map<nat, Worker>, a: seq<Action>, b: seq<Action>)
    ensures Absorb(workers, a + b) == Absorb(Absorb(workers, a), b)
    decreases |b|
  {
    if b == [] {
      assert a + b == a;
    } else {
      var n := |b| - 1;
      assert (a + b)[..|a + b| - 1] == a + b[..n] && (a + b)[|a + b| - 1] == b[n];
      AbsorbAppend(workers, a, b[..n]);
    }
  }

  lemma AbsorbSnoc(workers: map<nat, Worker>, more: seq<Action>, action: Action)
    ensures Absorb(workers, more + [action]) == AbsorbOne(Absorb(workers, more), action)
  {
    assert (more + [action])[..|more|] == more;
  }

  /** The workers have followed the service from one history to a longer one, and nothing else has moved them. */
  ghost predicate Followed(sys: System, after: System) {
    && sys.sv.state.log <= after.sv.state.log
    && after.workers == Absorb(sys.workers, after.sv.state.log[|sys.sv.state.log|..])
    && after.managerClosed == sys.managerClosed && after.rootCancelled == sys.rootCancelled
  }

  lemma FollowedOn(sys: System, next: System, after: System)
    requires Followed(sys, next) && Followed(next, after)
    ensures Followed(sys, after)
  {
    var log, mid, end := sys.sv.state.log, next.sv.state.log, after.sv.state.log;
    assert end[|log|..] == mid[|log|..] + end[|mid|..];
    AbsorbAppend(sys.workers, mid[|log|..], end[|mid|..]);
  }

  lemma ServeFollows(cfg: Config, deps: Deps, sys: System, input: Service.Input)
    requires Environment(deps) && !input.Event? && !sys.managerClosed && !sys.rootCancelled
    ensures var next := Move1(cfg, deps, sys, Serve(input));
            next.sv == Step(cfg, deps, sys.sv, input) && Followed(sys, next)
  {
    StepAdds(cfg, deps, sys.sv, input, true);
  }

  /** While no worker is heard, the system runs as the service alone, and the workers follow what it does. */
  lemma {:induction false} ServesRun(cfg: Config, deps: Deps, sys: System, inputs: seq<Service.Input>, clock: int)
    requires Environment(deps) && Timely(cfg, deps, sys.sv, inputs, clock) && !sys.managerClosed && !sys.rootCancelled
    ensures var after := Play(cfg, deps, sys, Serves(inputs));
            after.sv == RunFrom(cfg, deps, sys.sv, inputs) && Followed(sys, after)
    ensures TimelyPlay(cfg, deps, sys, Serves(inputs), clock) && PlayEnd(Serves(inputs), clock) == EndOf(inputs, clock)
    decreases |inputs|
  {
    if inputs == [] {
      assert sys.sv.state.log[|sys.sv.state.log|..] == [];
    } else {
      var next := Move1(cfg, deps, sys, Serve(inputs[0]));
      ServeFollows(cfg, deps, sys, inputs[0]);
      assert Serves(inputs)[1..] == Serves(inputs[1..]);
      ServesRun(cfg, deps, next, inputs[1..], TimeOf(inputs[0], clock));
      FollowedOn(sys, next, Play(cfg, deps, next, Serves(inputs[1..])));
    }
  }
}
