/**
 A run in which two workers of one item work at the same time: the item's first worker, stopped for a stall,
 fails late and so ends the run of the second, which nobody stops; the retry then starts a third.
 */
module StrayEvents {
  import opened Text
  import opened Domain
  import opened Scheduler
  import opened Lifecycle
  import opened Safety
  import opened Service
  import opened ServiceSafety
  import opened Runs
  import opened Rounds
  import opened Workers
  import opened Orphans
  import opened WorkerRounds
  import DispatchPass
  import Hosts

  // ----- the environment -----

  /** Every start of the item succeeds under a handle of its own, one more than its attempt. */
  function HandleOf(attempt: int): nat {
    if attempt >= 0 then attempt + 1 else 0
  }

  /** A tracker that shows and lists one item. */
  ghost function Obliging(item: WorkItem): Deps {
    Deps(Some((n: nat, ids: seq<string>) => Ok(if ids == [item.id] then [item] else [])),
         Some((n: nat, request: StartRequest) => Ok(StartResult(Some(HandleOf(request.attempt)), "", "", ""))),
         Some((n: nat) => Ok([item])), Some(NO_HOSTS), None,
         (n: nat, keys: set<string>) => AnyOrder(keys), AnySort())
  }

  /** What the run below needs of such an environment. */
  ghost predicate Obliges(deps: Deps, item: WorkItem) {
    && Environment(deps) && DispatchPass.SortsCandidates(deps) && Shows(deps, item)
    && deps.list.Some? && (forall n: nat :: deps.list.value(n) == Ok([item]))
    && deps.start.Some?
    && (forall n: nat, request :: deps.start.value(n, request)
                                  == Ok(StartResult(Some(HandleOf(request.attempt)), "", "", "")))
  }

  lemma ObligingObliges(item: WorkItem)
    ensures Obliges(Obliging(item), item)
  {
    AnySortSorts(Obliging(item));
  }

  // ----- the scheduler's part -----

  function StartOf(item: WorkItem, attempt: int): Action {
    Started(item.id, attempt, "", true, Some(HandleOf(attempt)))
  }

  /** The item runs, and nothing else does. */
  ghost predicate RunsAlone(s: State, item: WorkItem, attempt: int) {
    && s.running.Keys == {item.id} && s.claimed.Keys == {item.id} && s.retrying == map[]
    && s.running[item.id].item == item && s.running[item.id].attempt == attempt
    && s.running[item.id].handle == Some(HandleOf(attempt))
  }

  /** The item is queued and claimed, and nothing runs. */
  ghost predicate WaitsAlone(s: State, item: WorkItem, attempt: int) {
    && s.running == map[] && s.claimed.Keys == {item.id} && s.retrying.Keys == {item.id}
    && s.retrying[item.id].attempt == attempt
  }

  lemma StartRunsAlone(cfg: Config, deps: Deps, s: State, now: int, item: WorkItem, attempt: int)
    requires Obliges(deps, item) && s.running == map[] && s.claimed.Keys <= {item.id} && s.retrying.Keys <= {item.id}
    ensures var (t, ok) := StartOn(cfg, deps, s, now, item, attempt, "");
            ok && RunsAlone(t, item, attempt) && t.log == s.log + [StartOf(item, attempt)]
  {
  }

  lemma FirstTry(cfg: Config, deps: Deps, s: State, now: int, item: WorkItem)
    requires Obliges(deps, item) && ShouldDispatch(cfg, EMPTY, item) && Unmoved(EMPTY, s)
    ensures var t := TryCandidate(cfg, deps, s, now, item);
            && RunsAlone(t, item, 0) && t.log == [StartOf(item, 0)] && LastActivity(t.running[item.id]) == now
  {
    assert ShouldDispatch(cfg, s, item);
    TryShown(cfg, deps, s, now, item);
    StartRunsAlone(cfg, deps, s.(calls := s.calls + 1), now, item, 0);
  }

  lemma FirstCycle(cfg: Config, deps: Deps, s: State, now: int, item: WorkItem)
    requires Obliges(deps, item) && cfg.stallTimeout > 0 && ShouldDispatch(cfg, EMPTY, item)
    requires Unmoved(EMPTY, s)
    ensures var t := CycleState(cfg, deps, s, now);
            && RunsAlone(t, item, 0) && t.log == [StartOf(item, 0)] && LastActivity(t.running[item.id]) == now
  {
    var called := s.(calls := s.calls + 1);
    NothingStalled(cfg, deps, s, now);
    OneListed(cfg, deps, called, now, item);
    FirstTry(cfg, deps, called.(calls := called.calls + 2), now, item);
  }

  /** The item's run is stalled: it is stopped and queued; as a claimed candidate it is passed over. */
  lemma SecondCycle(cfg: Config, deps: Deps, s: State, later: int, item: WorkItem)
    requires Obliges(deps, item) && cfg.stallTimeout > 0 && RunsAlone(s, item, 0)
    requires IsStalled(cfg, s.running[item.id], later)
    ensures var t := CycleState(cfg, deps, s, later);
            && WaitsAlone(t, item, 1) && |t.log| == |s.log| + 2 && t.log[..|s.log|] == s.log
            && t.log[|s.log|] == StopCalled(item.id, item.identifier, Some(1), false) && t.log[|s.log| + 1].Queued?
  {
    OnlyRunStalled(cfg, deps, s, later, item.id);
    var stalled := Reconcile(cfg, deps, s, later);
    StalledWaits(cfg, s, later, item);
    OneListed(cfg, deps, stalled, later, item);
  }

  lemma StalledWaits(cfg: Config, s: State, later: int, item: WorkItem)
    requires RunsAlone(s, item, 0)
    ensures var t := StallRun(cfg, s.(calls := s.calls + 1), later, item.id, s.running[item.id]);
            && WaitsAlone(t, item, 1) && |t.log| == |s.log| + 2 && t.log[..|s.log|] == s.log
            && t.log[|s.log|] == StopCalled(item.id, item.identifier, Some(1), false) && t.log[|s.log| + 1].Queued?
  {
  }

  /** The queued item starts again when its retry is due. */
  lemma RetryStarts(cfg: Config, deps: Deps, s: State, due: int, item: WorkItem, attempt: int)
    requires Obliges(deps, item) && RetryCandidate(cfg, item) && WaitsAlone(s, item, attempt)
    ensures var nonce := s.retrying[item.id].nonce;
            var t := HandleDueRetry(cfg, deps, s, due, item.id, nonce);
            RunsAlone(t, item, attempt) && t.log == s.log + [Consumed(item.id, nonce), StartOf(item, attempt)]
  {
    var entry := s.retrying[item.id];
    var taken := Consume(s, item.id, entry.nonce);
    var ready := taken.(calls := taken.calls + 1);
    assert RefreshRetryItem(cfg, deps, taken, item.id) == (ready, Ready(item));
    NoHostsAdmit(deps, ready, entry.workerHost);
    assert InState(cfg, ready.running, item.state) == {};
    StartRunsAlone(cfg, deps, ready, due, item, attempt);
    assert HandleDueRetry(cfg, deps, s, due, item.id, entry.nonce) == StartOn(cfg, deps, ready, due, item, attempt, "").0;
    assert s.log + [Consumed(item.id, entry.nonce)] + [StartOf(item, attempt)]
           == s.log + [Consumed(item.id, entry.nonce), StartOf(item, attempt)];
  }

  // ----- rounds -----

  lemma RoundOne(cfg: Config, deps: Deps, start: int, item: WorkItem)
    requires Obliges(deps, item) && cfg.stallTimeout > 0 && ShouldDispatch(cfg, EMPTY, item)
    ensures var sv, now := NewService(start), FirstAt(cfg, start);
            var tv := RunFrom(cfg, deps, sv, Poll(cfg, sv, now));
            && Resting(cfg, tv) && RunsAlone(tv.state, item, 0) && tv.state.log == [StartOf(item, 0)]
            && LastActivity(tv.state.running[item.id]) == now
  {
    StartRests(cfg, start);
    PollRun(cfg, deps, NewService(start), FirstAt(cfg, start));
    FirstCycle(cfg, deps, Begun(NewService(start).state), FirstAt(cfg, start), item);
  }

  /** The history once the item has been stopped for a stall and queued. */
  predicate StalledLog(log: seq<Action>, item: WorkItem) {
    && |log| == 3 && log[0] == StartOf(item, 0)
    && log[1] == StopCalled(item.id, item.identifier, Some(1), false) && log[2].Queued?
  }

  lemma RoundTwo(cfg: Config, deps: Deps, sv: ServiceState, now: int, later: int, item: WorkItem)
    requires Obliges(deps, item) && cfg.stallTimeout > 0 && later - now > cfg.stallTimeout
    requires Resting(cfg, sv) && RunsAlone(sv.state, item, 0) && sv.state.log == [StartOf(item, 0)]
    requires LastActivity(sv.state.running[item.id]) == now
    ensures var tv := RunFrom(cfg, deps, sv, Poll(cfg, sv, later));
            Resting(cfg, tv) && WaitsAlone(tv.state, item, 1) && StalledLog(tv.state.log, item)
  {
    PollRun(cfg, deps, sv, later);
    SecondCycle(cfg, deps, Begun(sv.state), later, item);
  }

  lemma RetryRound(cfg: Config, deps: Deps, sv: ServiceState, due: int, item: WorkItem, attempt: int)
    requires Obliges(deps, item) && RetryCandidate(cfg, item) && Resting(cfg, sv) && WaitsAlone(sv.state, item, attempt)
    ensures item.id in sv.retryTimers
    ensures var tv := RunFrom(cfg, deps, sv, Retries(sv, item.id, due));
            && Resting(cfg, tv) && RunsAlone(tv.state, item, attempt)
            && tv.state.log
               == sv.state.log + [Consumed(item.id, sv.state.retrying[item.id].nonce), StartOf(item, attempt)]
  {
    RetryRun(cfg, deps, sv, item.id, due);
    RetryStarts(cfg, deps, sv.state, due, item, attempt);
  }

  /** The history once it has started again. */
  predicate RestartedLog(log: seq<Action>, item: WorkItem) {
    |log| == 5 && StalledLog(log[..3], item) && log[3].Consumed? && log[4] == StartOf(item, 1)
  }

  lemma UntilStalled(cfg: Config, deps: Deps, start: int, later: int, item: WorkItem)
    returns (inputs: seq<Service.Input>)
    requires Obliges(deps, item) && cfg.stallTimeout > 0 && ShouldDispatch(cfg, EMPTY, item)
    requires Apart(cfg, start, later) && later - FirstAt(cfg, start) > cfg.stallTimeout
    ensures Timely(cfg, deps, NewService(start), inputs, start) && EndOf(inputs, start) == later
    ensures var tv := After(cfg, deps, start, inputs);
            Resting(cfg, tv) && WaitsAlone(tv.state, item, 1) && StalledLog(tv.state.log, item)
  {
    var sv, now := NewService(start), FirstAt(cfg, start);
    RoundOne(cfg, deps, start, item);
    TwoPolls(cfg, deps, start, later);
    var one := RunFrom(cfg, deps, sv, Poll(cfg, sv, now));
    RoundTwo(cfg, deps, one, now, later, item);
    inputs := Poll(cfg, sv, now) + Poll(cfg, one, later);
  }

  /** The retry fires when it can. */
  lemma UntilRestarted(cfg: Config, deps: Deps, start: int, later: int, item: WorkItem)
    returns (inputs: seq<Service.Input>, due: int)
    requires Obliges(deps, item) && cfg.stallTimeout > 0 && ShouldDispatch(cfg, EMPTY, item)
    requires Apart(cfg, start, later) && later - FirstAt(cfg, start) > cfg.stallTimeout
    ensures Timely(cfg, deps, NewService(start), inputs, start) && EndOf(inputs, start) == due
    ensures var tv := After(cfg, deps, start, inputs);
            Resting(cfg, tv) && RunsAlone(tv.state, item, 1) && RestartedLog(tv.state.log, item)
  {
    var first := UntilStalled(cfg, deps, start, later, item);
    var two := After(cfg, deps, start, first);
    due := RetryAt(two, item.id, later);
    RetryRound(cfg, deps, two, due, item, 1);
    RetryTimely(cfg, deps, two, item.id, due, later);
    TimelyAppend(cfg, deps, NewService(start), first, Retries(two, item.id, due), start);
    inputs := first + Retries(two, item.id, due);
  }

  // ----- the stopped worker is heard -----

  /** An event without any news but its kind. */
  function Bare(kind: EventKind, id: string): RunEvent {
    RunEvent(kind, id, None, "", "", "", "", None, NO_TOTALS, None)
  }

  lemma AnnouncementHeard(cfg: Config, s: State, due: int, item: WorkItem)
    requires RunsAlone(s, item, 1)
    ensures var t := ApplyRunEvent(cfg, s, due, Bare(RunnerHostSelected, item.id));
            RunsAlone(t, item, 1) && t.log == s.log && t.checking == s.checking
  {
  }

  lemma FailureHeard(cfg: Config, s: State, due: int, item: WorkItem)
    requires RunsAlone(s, item, 1)
    ensures var t := ApplyRunEvent(cfg, s, due, Bare(RunFailed, item.id));
            && WaitsAlone(t, item, 2) && |t.log| == |s.log| + 1 && t.log[..|s.log|] == s.log && t.log[|s.log|].Queued?
            && t.checking == s.checking
  {
  }

  lemma HeardRests(cfg: Config, deps: Deps, sv: ServiceState, due: int, event: RunEvent)
    requires Resting(cfg, sv) && Environment(deps) && !ApplyRunEvent(cfg, sv.state, due, event).checking
    ensures Resting(cfg, ApplyEvent(cfg, deps, sv, due, event))
    ensures Unmoved(ApplyRunEvent(cfg, sv.state, due, event), ApplyEvent(cfg, deps, sv, due, event).state)
  {
    ApplyEventSound(cfg, deps, sv, due, event);
    SyncKeeps(deps, sv.(state := ApplyRunEvent(cfg, sv.state, due, event)), due);
  }

  // ----- the workers' part -----

  /** The stopped first worker of the item and the working second one. */
  ghost predicate FirstAndSecond(workers: map<nat, Worker>, item: WorkItem, pc: Pc) {
    && 1 in workers && workers[1].itemId == item.id && workers[1].host == "" && workers[1].pc == pc && workers[1].cancelled
    && 2 in workers && workers[2] == NewWorker(item.id, "")
  }

  lemma RestartedWorkers(log: seq<Action>, item: WorkItem)
    requires RestartedLog(log, item)
    ensures FirstAndSecond(Absorb(map[], log), item, AnnounceHost)
  {
    assert log == [] + [log[0]] + [log[1]] + [log[2]] + [log[3]] + [log[4]];
    AbsorbSnoc(map[], [], log[0]);
    AbsorbSnoc(map[], [] + [log[0]], log[1]);
    AbsorbSnoc(map[], [] + [log[0]] + [log[1]], log[2]);
    AbsorbSnoc(map[], [] + [log[0]] + [log[1]] + [log[2]], log[3]);
    AbsorbSnoc(map[], [] + [log[0]] + [log[1]] + [log[2]] + [log[3]], log[4]);
  }

  lemma ThirdWorker(workers: map<nat, Worker>, item: WorkItem, nonce: nat, pc: Pc)
    requires FirstAndSecond(workers, item, pc)
    ensures var after := Absorb(workers, [Consumed(item.id, nonce), StartOf(item, 2)]);
            && 2 in after && after[2] == NewWorker(item.id, "") && 3 in after && after[3] == NewWorker(item.id, "")
  {
    AbsorbSnoc(workers, [], Consumed(item.id, nonce));
    AbsorbSnoc(workers, [] + [Consumed(item.id, nonce)], StartOf(item, 2));
    assert [] + [Consumed(item.id, nonce)] + [StartOf(item, 2)] == [Consumed(item.id, nonce), StartOf(item, 2)];
  }

  // ----- the run -----

  /** Between timers: the system stands where the item has started again, its first worker at `pc`. */
  ghost predicate Restarted(cfg: Config, sys: System, item: WorkItem, pc: Pc) {
    && Resting(cfg, sys.sv) && RunsAlone(sys.sv.state, item, 1) && RestartedLog(sys.sv.state.log, item)
    && FirstAndSecond(sys.workers, item, pc) && !sys.managerClosed && !sys.rootCancelled
  }

  lemma FirstPart(cfg: Config, deps: Deps, start: int, later: int, item: WorkItem)
    returns (moves: seq<Move>, due: int)
    requires Obliges(deps, item) && cfg.stallTimeout > 0 && ShouldDispatch(cfg, EMPTY, item)
    requires Apart(cfg, start, later) && later - FirstAt(cfg, start) > cfg.stallTimeout
    ensures TimelyPlay(cfg, deps, NewSystem(start), moves, start) && PlayEnd(moves, start) == due
    ensures Restarted(cfg, Play(cfg, deps, NewSystem(start), moves), item, AnnounceHost)
  {
    var inputs;
    inputs, due := UntilRestarted(cfg, deps, start, later, item);
    moves := Serves(inputs);
    ServesRun(cfg, deps, NewSystem(start), inputs, start);
    var log := After(cfg, deps, start, inputs).state.log;
    assert log[|NewSystem(start).sv.state.log|..] == log;
    RestartedWorkers(log, item);
  }

  /** The first worker announces its host, and creating its workspace fails. */
  lemma Announced(cfg: Config, deps: Deps, sys: System, item: WorkItem, due: int)
    requires Environment(deps) && Restarted(cfg, sys, item, AnnounceHost)
    ensures var heard := Move1(cfg, deps, sys, Emit(1, Bare(RunnerHostSelected, item.id), due));
            && Restarted(cfg, heard, item, CreateWorkspace)
            && Restarted(cfg, Move1(cfg, deps, heard, Proceed(1, CreateFails)), item, EmitTerminal(RunFailed))
  {
    var event := Bare(RunnerHostSelected, item.id);
    AnnouncementHeard(cfg, sys.sv.state, due, item);
    HeardRests(cfg, deps, sys.sv, due, event);
    assert MayEmit(sys, 1, event);
  }

  /** The history once the late failure has queued the item again. */
  predicate FailedLog(log: seq<Action>, item: WorkItem) {
    |log| == 6 && RestartedLog(log[..5], item) && log[5].Queued?
  }

  lemma FailureServed(cfg: Config, deps: Deps, sv: ServiceState, due: int, item: WorkItem)
    requires Environment(deps) && Resting(cfg, sv) && RunsAlone(sv.state, item, 1) && RestartedLog(sv.state.log, item)
    ensures var after := ApplyEvent(cfg, deps, sv, due, Bare(RunFailed, item.id));
            Resting(cfg, after) && WaitsAlone(after.state, item, 2) && FailedLog(after.state.log, item)
  {
    FailureHeard(cfg, sv.state, due, item);
    HeardRests(cfg, deps, sv, due, Bare(RunFailed, item.id));
  }

  lemma FailureMayBeEmitted(sys: System, item: WorkItem)
    requires FirstAndSecond(sys.workers, item, EmitTerminal(RunFailed))
    ensures MayEmit(sys, 1, Bare(RunFailed, item.id))
    ensures FirstAndSecond(sys.workers[1 := Emitted(sys.workers[1])], item, Leaving)
  {
  }

  /** Its failure ends the second worker's run. */
  lemma Failed(cfg: Config, deps: Deps, sys: System, item: WorkItem, due: int)
    requires Environment(deps) && Restarted(cfg, sys, item, EmitTerminal(RunFailed))
    ensures var after := Move1(cfg, deps, sys, Emit(1, Bare(RunFailed, item.id), due));
            && Resting(cfg, after.sv) && WaitsAlone(after.sv.state, item, 2) && FailedLog(after.sv.state.log, item)
            && FirstAndSecond(after.workers, item, Leaving) && !after.managerClosed && !after.rootCancelled
  {
    FailureServed(cfg, deps, sys.sv, due, item);
    FailureMayBeEmitted(sys, item);
  }

  /** Two workers of the item, neither stopped nor near its end, and no handle given out twice. */
  ghost predicate TwoWork(sys: System, item: WorkItem) {
    && FreshHandles(sys.sv.state.log) && 2 in sys.workers && 3 in sys.workers
    && sys.workers[2].itemId == sys.workers[3].itemId == item.id
    && IsWorking(sys.workers[2]) && IsWorking(sys.workers[3])
  }

  lemma FinalHandles(log: seq<Action>, item: WorkItem, nonce: nat)
    requires FailedLog(log, item)
    ensures FreshHandles(log + [Consumed(item.id, nonce), StartOf(item, 2)])
  {
    var longer := log + [Consumed(item.id, nonce), StartOf(item, 2)];
    assert log[..5][4] == log[4] && log[..5][3] == log[3] && log[..5][..3] == log[..3];
    assert forall k :: 0 <= k < 3 ==> log[..3][k] == log[k];
    assert forall k :: 0 <= k < 8 && longer[k].Started? ==> k == 0 || k == 4 || k == 7;
  }

  lemma TwoFollow(before: System, after: System, item: WorkItem, nonce: nat)
    requires FailedLog(before.sv.state.log, item) && FirstAndSecond(before.workers, item, Leaving)
    requires Followed(before, after)
    requires after.sv.state.log == before.sv.state.log + [Consumed(item.id, nonce), StartOf(item, 2)]
    ensures TwoWork(after, item)
  {
    var log, more := before.sv.state.log, [Consumed(item.id, nonce), StartOf(item, 2)];
    assert (log + more)[|log|..] == more;
    ThirdWorker(before.workers, item, nonce, Leaving);
    FinalHandles(log, item, nonce);
  }

  /** The retry starts a third worker beside the second. */
  lemma LastPart(cfg: Config, deps: Deps, sys: System, item: WorkItem, clock: int) returns (moves: seq<Move>)
    requires Obliges(deps, item) && RetryCandidate(cfg, item)
    requires Resting(cfg, sys.sv) && WaitsAlone(sys.sv.state, item, 2) && FailedLog(sys.sv.state.log, item)
    requires FirstAndSecond(sys.workers, item, Leaving) && !sys.managerClosed && !sys.rootCancelled
    ensures TwoWork(Play(cfg, deps, sys, moves), item) && TimelyPlay(cfg, deps, sys, moves, clock)
  {
    var nonce, due := sys.sv.state.retrying[item.id].nonce, RetryAt(sys.sv, item.id, clock);
    RetryRound(cfg, deps, sys.sv, due, item, 2);
    RetryTimely(cfg, deps, sys.sv, item.id, due, clock);
    moves := Serves(Retries(sys.sv, item.id, due));
    ServesRun(cfg, deps, sys, Retries(sys.sv, item.id, due), clock);
    TwoFollow(sys, Play(cfg, deps, sys, moves), item, nonce);
  }

  /** What the stopped worker still does. */
  function LateFailure(id: string, due: int): seq<Move> {
    [Emit(1, Bare(RunnerHostSelected, id), due)] + [Proceed(1, CreateFails)] + [Emit(1, Bare(RunFailed, id), due)]
  }

  lemma PlayLateFailure(cfg: Config, deps: Deps, sys: System, item: WorkItem, due: int)
    requires Environment(deps) && Restarted(cfg, sys, item, AnnounceHost)
    ensures var after := Play(cfg, deps, sys, LateFailure(item.id, due));
            && Resting(cfg, after.sv) && WaitsAlone(after.sv.state, item, 2) && FailedLog(after.sv.state.log, item)
            && FirstAndSecond(after.workers, item, Leaving) && !after.managerClosed && !after.rootCancelled
    ensures TimelyPlay(cfg, deps, sys, LateFailure(item.id, due), due)
    ensures PlayEnd(LateFailure(item.id, due), due) == due
  {
    var announce, create, fail :=
      Emit(1, Bare(RunnerHostSelected, item.id), due), Proceed(1, CreateFails), Emit(1, Bare(RunFailed, item.id), due);
    var heard := Move1(cfg, deps, sys, announce);
    var failing := Move1(cfg, deps, heard, create);
    Announced(cfg, deps, sys, item, due);
    Failed(cfg, deps, failing, item, due);
    PlayThree(cfg, deps, sys, announce, create, fail, due);
  }

  lemma PlayThree(cfg: Config, deps: Deps, sys: System, a: Move, b: Move, c: Move, clock: int)
    requires WellOrdered(deps) && !a.Serve? && !b.Serve? && !c.Serve?
    requires MoveTime(a, clock) == MoveTime(b, clock) == MoveTime(c, clock) == clock
    ensures Play(cfg, deps, sys, [a] + [b] + [c])
            == Move1(cfg, deps, Move1(cfg, deps, Move1(cfg, deps, sys, a), b), c)
    ensures TimelyPlay(cfg, deps, sys, [a] + [b] + [c], clock) && PlayEnd([a] + [b] + [c], clock) == clock
  {
    var second := Move1(cfg, deps, sys, a);
    PlaySingle(cfg, deps, sys, a);
    TimelySingle(cfg, deps, sys, a, clock);
    PlayAppend(cfg, deps, sys, [a], [b]);
    PlaySingle(cfg, deps, second, b);
    TimelySingle(cfg, deps, second, b, clock);
    TimelyPlayAppend(cfg, deps, sys, [a], [b], clock);
    PlayAppend(cfg, deps, sys, [a] + [b], [c]);
    PlaySingle(cfg, deps, Move1(cfg, deps, second, b), c);
    TimelySingle(cfg, deps, Move1(cfg, deps, second, b), c, clock);
    TimelyPlayAppend(cfg, deps, sys, [a] + [b], [c], clock);
  }

  lemma Doubled(cfg: Config, deps: Deps, item: WorkItem, start: int, later: int) returns (moves: seq<Move>)
    requires Obliges(deps, item) && cfg.stallTimeout > 0 && ShouldDispatch(cfg, EMPTY, item)
    requires Apart(cfg, start, later) && later - FirstAt(cfg, start) > cfg.stallTimeout
    ensures TwoWork(Play(cfg, deps, NewSystem(start), moves), item)
    ensures TimelyPlay(cfg, deps, NewSystem(start), moves, start)
  {
    var sys := NewSystem(start);
    var first, due := FirstPart(cfg, deps, start, later, item);
    var middle := LateFailure(item.id, due);
    PlayLateFailure(cfg, deps, Play(cfg, deps, sys, first), item, due);
    PlayAppend(cfg, deps, sys, first, middle);
    TimelyPlayAppend(cfg, deps, sys, first, middle, start);
    var end := LastPart(cfg, deps, Play(cfg, deps, sys, first + middle), item, due);
    PlayAppend(cfg, deps, sys, first + middle, end);
    TimelyPlayAppend(cfg, deps, sys, first + middle, end, start);
    moves := first + middle + end;
  }

  /** The run: it ends with two working workers of the item, after another worker's event has ended a working run. */
  lemma StrayFailureDoubles(cfg: Config, item: WorkItem, start: int, later: int) returns (moves: seq<Move>)
    requires cfg.stallTimeout > 0 && ShouldDispatch(cfg, EMPTY, item)
    requires Apart(cfg, start, later) && later - FirstAt(cfg, start) > cfg.stallTimeout
    ensures var deps := Obliging(item);
            && Environment(deps) && TimelyPlay(cfg, deps, NewSystem(start), moves, start)
            && TwoWork(Play(cfg, deps, NewSystem(start), moves), item)
            && !NoneEnded(cfg, deps, NewSystem(start), moves, item.id)
  {
    ObligingObliges(item);
    moves := Doubled(cfg, Obliging(item), item, start, later);
    TwoWorkersMeanEndedRun(cfg, Obliging(item), start, moves, 2, 3);
  }
}
