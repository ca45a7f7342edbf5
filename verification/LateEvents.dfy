/**
 A run in which a stopped worker, heard late, puts two runs on a host with room for one: its item has been
 started again on another host meanwhile, and the event, which names the old host, moves the new run there.
 */
module LateEvents {
  import opened Text
  import opened Domain
  import opened Scheduler
  import opened Lifecycle
  import opened Safety
  import opened Service
  import opened ServiceSafety
  import opened Runs
  import opened Rounds
  import opened Workers
  import opened HostCapacity
  import opened JointHosts
  import opened WorkerRounds
  import DispatchPass
  import Hosts

  // ----- the environment -----

  /** Two hosts with room for one run each. */
  function TwoHosts(x: string, y: string): Hosts.HostSelection {
    Hosts.HostSelection([x, y], Some(1))
  }

  /** A handle of its own for each of the three starts: the two of `a`, and the one of another item. */
  function HandleOf(a: WorkItem, request: StartRequest): nat {
    if request.item.id != a.id then 2 else if request.attempt == 0 then 1 else 3
  }

  /** The tracker lists `a` to the first poll and `b` to the others, and every start succeeds. */
  ghost function Handing(a: WorkItem, b: WorkItem, x: string, y: string): Deps {
    Deps(Some((n: nat, ids: seq<string>) => Ok(if ids == [a.id] then [a] else if ids == [b.id] then [b] else [])),
         Some((n: nat, request: StartRequest) => Ok(StartResult(Some(HandleOf(a, request)), "", "", ""))),
         Some((n: nat) => Ok(if n <= 1 then [a] else [b])), Some(TwoHosts(x, y)), None,
         (n: nat, keys: set<string>) => AnyOrder(keys), AnySort())
  }

  /** What the run below needs of such an environment. */
  ghost predicate Hands(deps: Deps, a: WorkItem, b: WorkItem, x: string, y: string) {
    && Environment(deps) && DispatchPass.SortsCandidates(deps) && EchoesHost(deps)
    && deps.hosts == Some(TwoHosts(x, y))
    && deps.refresh.Some? && (forall n: nat :: deps.refresh.value(n, [a.id]) == Ok([a]))
    && (forall n: nat :: deps.refresh.value(n, [b.id]) == Ok([b]))
    && deps.start.Some?
    && (forall n: nat, request :: deps.start.value(n, request) == Ok(StartResult(Some(HandleOf(a, request)), "", "", "")))
    && deps.list.Some? && (forall n: nat :: deps.list.value(n) == Ok(if n <= 1 then [a] else [b]))
  }

  lemma HandingHands(a: WorkItem, b: WorkItem, x: string, y: string)
    requires a.id != b.id
    ensures Hands(Handing(a, b, x, y), a, b, x, y)
  {
    AnySortSorts(Handing(a, b, x, y));
  }

  /** Stalls are looked for, no limits but the hosts', two dispatchable items and two hosts. */
  ghost predicate Setting(cfg: Config, a: WorkItem, b: WorkItem, x: string, y: string) {
    && cfg.stallTimeout > 0 && cfg.maxConcurrent <= 0 && cfg.StateLimit(a.state) <= 0 && cfg.StateLimit(b.state) <= 0
    && RetryCandidate(cfg, a) && RetryCandidate(cfg, b) && a.id != b.id
    && Trim(x) == x != "" && Trim(y) == y != "" && x != y
  }

  lemma HostsLimited(deps: Deps, x: string, y: string)
    requires deps.hosts == Some(TwoHosts(x, y)) && Trim(x) == x != "" && Trim(y) == y != ""
    ensures Hosts.Configured([x, y]) == [x, y] && Limited(deps)
  {
    assert [x, y][1..] == [y] && [y][1..] == [];
    assert Hosts.Configured([y]) == [y];
  }

  lemma FirstHost(deps: Deps, s: State, x: string, y: string)
    requires deps.hosts == Some(TwoHosts(x, y)) && Trim(x) == x != "" && Trim(y) == y != "" && s.running == map[]
    ensures AdmitHost(deps, s, "") == (s, Some(x))
  {
    HostsLimited(deps, x, y);
    var counts := HostCount(s.running);
    assert Hosts.BestOf(deps.hosts.value, counts, [x, y], 1) == Some(x);
  }

  lemma SecondHost(deps: Deps, s: State, x: string, y: string)
    requires deps.hosts == Some(TwoHosts(x, y)) && Trim(x) == x != "" && Trim(y) == y != ""
    requires OnHost(s.running, y) == {} && |OnHost(s.running, x)| == 1
    ensures AdmitHost(deps, s, x) == (s, Some(y))
  {
    HostsLimited(deps, x, y);
    HostCountIsTrue(s.running, x);
    HostCountIsTrue(s.running, y);
    var counts := HostCount(s.running);
    assert Hosts.BestOf(deps.hosts.value, counts, [x, y], 1) == None;
  }

  // ----- the three rounds -----

  /** The entry of a run that has just begun. */
  function Entry(a: WorkItem, item: WorkItem, attempt: int, now: int, host: string): Run {
    Run(item, attempt, now, None, None, "", "", 0, host, "", NO_TOTALS, NO_TOTALS,
        Some(HandleOf(a, StartRequest(item, attempt, host))))
  }

  function StartOf(a: WorkItem, item: WorkItem, attempt: int, host: string): Action {
    Started(item.id, attempt, host, true, Some(HandleOf(a, StartRequest(item, attempt, host))))
  }

  /** `t` is `s` with a run begun. */
  predicate Begins(s: State, t: State, a: WorkItem, item: WorkItem, attempt: int, now: int, host: string) {
    && t.running == s.running[item.id := Entry(a, item, attempt, now, host)]
    && t.retrying == s.retrying - {item.id} && item.id in t.claimed && t.claimed.Keys == s.claimed.Keys + {item.id}
    && t.log == s.log + [StartOf(a, item, attempt, host)] && t.calls >= s.calls
  }

  lemma StartBegins(
    cfg: Config, deps: Deps, s: State, now: int, item: WorkItem, attempt: int, a: WorkItem, b: WorkItem,
    x: string, y: string, host: string)
    requires Hands(deps, a, b, x, y) && !IsBlank(host)
    ensures var (t, ok) := StartOn(cfg, deps, s, now, item, attempt, host);
            ok && Begins(s, t, a, item, attempt, now, host)
  {
  }

  /** An idle scheduler would dispatch either item. */
  lemma Dispatchable(cfg: Config, s: State, item: WorkItem, a: WorkItem, b: WorkItem, x: string, y: string)
    requires Setting(cfg, a, b, x, y) && (item == a || item == b) && s.running == map[] && item.id !in s.claimed
    ensures ShouldDispatch(cfg, s, item)
  {
  }

  lemma IdleTry(
    cfg: Config, deps: Deps, s: State, now: int, item: WorkItem, a: WorkItem, b: WorkItem, x: string, y: string)
    requires Setting(cfg, a, b, x, y) && Hands(deps, a, b, x, y) && (item == a || item == b)
    requires s.running == map[] && ShouldDispatch(cfg, s, item)
    ensures Begins(s, TryCandidate(cfg, deps, s, now, item), a, item, 0, now, x)
  {
    var called := s.(calls := s.calls + 1);
    assert RevalidateCandidate(cfg, deps, s, item.id) == (called, Some(item));
    FirstHost(deps, called, x, y);
    StartBegins(cfg, deps, called, now, item, 0, a, b, x, y, x);
  }

  /** The candidate of a pass over one item, on an idle scheduler, starts on the first host. */
  lemma IdlePass(
    cfg: Config, deps: Deps, s: State, now: int, item: WorkItem, a: WorkItem, b: WorkItem, x: string, y: string)
    requires Setting(cfg, a, b, x, y) && Hands(deps, a, b, x, y) && (item == a || item == b)
    requires deps.list.value(s.calls) == Ok([item]) && s.running == map[] && item.id !in s.claimed
    ensures Begins(s, ListAndDispatch(cfg, deps, s, now), a, item, 0, now, x)
  {
    OneListed(cfg, deps, s, now, item);
    Dispatchable(cfg, s.(calls := s.calls + 2), item, a, b, x, y);
    IdleTry(cfg, deps, s.(calls := s.calls + 2), now, item, a, b, x, y);
  }

  /** After the first poll `a` runs on the first host. */
  ghost predicate AfterOne(s: State, a: WorkItem, x: string, now: int) {
    && s.running == map[a.id := Entry(a, a, 0, now, x)] && s.retrying == map[] && s.claimed.Keys == {a.id}
    && s.log == [StartOf(a, a, 0, x)] && s.calls >= 1
  }

  lemma FirstCycle(cfg: Config, deps: Deps, s: State, a: WorkItem, b: WorkItem, x: string, y: string, now: int)
    requires Setting(cfg, a, b, x, y) && Hands(deps, a, b, x, y) && Unmoved(EMPTY, s) && s.calls == 0
    ensures AfterOne(CycleState(cfg, deps, s, now), a, x, now)
  {
    var called := s.(calls := 1);
    NothingStalled(cfg, deps, s, now);
    IdlePass(cfg, deps, called, now, a, a, b, x, y);
    OneBegun(called, ListAndDispatch(cfg, deps, called, now), a, x, now);
  }

  lemma OneBegun(s: State, t: State, a: WorkItem, x: string, now: int)
    requires Unmoved(EMPTY, s) && s.calls == 1 && Begins(s, t, a, a, 0, now, x)
    ensures AfterOne(t, a, x, now)
  {
  }

  lemma RoundOne(cfg: Config, deps: Deps, a: WorkItem, b: WorkItem, x: string, y: string, start: int)
    requires Setting(cfg, a, b, x, y) && Hands(deps, a, b, x, y)
    ensures var sv, now := NewService(start), FirstAt(cfg, start);
            var tv := RunFrom(cfg, deps, sv, Poll(cfg, sv, now));
            Resting(cfg, tv) && AfterOne(tv.state, a, x, now)
  {
    StartRests(cfg, start);
    PollRun(cfg, deps, NewService(start), FirstAt(cfg, start));
    FirstCycle(cfg, deps, Begun(NewService(start).state), a, b, x, y, FirstAt(cfg, start));
  }

  /** After the second poll `a` is stopped and queued, and `b` runs on the first host. */
  ghost predicate AfterTwo(s: State, a: WorkItem, b: WorkItem, x: string, later: int) {
    && s.running == map[b.id := Entry(a, b, 0, later, x)]
    && s.retrying.Keys == {a.id} && s.retrying[a.id].attempt == 1 && s.retrying[a.id].workerHost == x
    && |s.log| == 4 && s.log[0] == StartOf(a, a, 0, x) && s.log[3] == StartOf(a, b, 0, x)
    && StopsHandle(s.log[1], 1) && s.log[2].Queued?
  }

  /** The first run of `a` has been stopped and its retry queued. */
  ghost predicate Stopped(s: State, a: WorkItem, x: string) {
    && s.running == map[] && s.claimed.Keys == {a.id} && s.calls > 1
    && s.retrying.Keys == {a.id} && s.retrying[a.id].attempt == 1 && s.retrying[a.id].workerHost == x
    && |s.log| == 3 && s.log[0] == StartOf(a, a, 0, x) && StopsHandle(s.log[1], 1) && s.log[2].Queued?
  }

  lemma StalledOne(cfg: Config, s: State, a: WorkItem, x: string, now: int, later: int)
    requires AfterOne(s, a, x, now)
    ensures Stopped(StallRun(cfg, s.(calls := s.calls + 1), later, a.id, s.running[a.id]), a, x)
  {
  }

  lemma SecondCycle(
    cfg: Config, deps: Deps, s: State, a: WorkItem, b: WorkItem, x: string, y: string, now: int, later: int)
    requires Setting(cfg, a, b, x, y) && Hands(deps, a, b, x, y) && AfterOne(s, a, x, now)
    requires later - now > cfg.stallTimeout
    ensures AfterTwo(CycleState(cfg, deps, s, later), a, b, x, later)
  {
    OnlyRunStalled(cfg, deps, s, later, a.id);
    var stalled := Reconcile(cfg, deps, s, later);
    StalledOne(cfg, s, a, x, now, later);
    IdlePass(cfg, deps, stalled, later, b, a, b, x, y);
  }

  lemma RoundTwo(
    cfg: Config, deps: Deps, sv: ServiceState, a: WorkItem, b: WorkItem, x: string, y: string, now: int, later: int)
    requires Setting(cfg, a, b, x, y) && Hands(deps, a, b, x, y) && Resting(cfg, sv) && AfterOne(sv.state, a, x, now)
    requires later - now > cfg.stallTimeout
    ensures var tv := RunFrom(cfg, deps, sv, Poll(cfg, sv, later));
            Resting(cfg, tv) && AfterTwo(tv.state, a, b, x, later)
  {
    PollRun(cfg, deps, sv, later);
    SecondCycle(cfg, deps, Begun(sv.state), a, b, x, y, now, later);
  }

  /** After its retry `a` runs on the second host, under its second handle. */
  ghost predicate AfterThree(s: State, a: WorkItem, b: WorkItem, x: string, y: string, later: int, due: int) {
    && s.running == map[b.id := Entry(a, b, 0, later, x), a.id := Entry(a, a, 1, due, y)]
    && |s.log| == 6 && s.log[0] == StartOf(a, a, 0, x) && s.log[3] == StartOf(a, b, 0, x)
    && s.log[5] == StartOf(a, a, 1, y)
    && StopsHandle(s.log[1], 1) && s.log[2].Queued? && s.log[4].Consumed?
  }

  /** The first host is full, so a redispatch that prefers it gets the second. */
  lemma RedispatchedElsewhere(
    cfg: Config, deps: Deps, s: State, entry: Retry, a: WorkItem, b: WorkItem, x: string, y: string, later: int, due: int)
    requires Setting(cfg, a, b, x, y) && Hands(deps, a, b, x, y) && s.running == map[b.id := Entry(a, b, 0, later, x)]
    requires entry.attempt == 1 && entry.workerHost == x
    ensures Begins(s, Redispatch(cfg, deps, s, due, a.id, entry, a), a, a, 1, due, y)
  {
    assert OnHost(s.running, x) == {b.id} && OnHost(s.running, y) == {};
    SecondHost(deps, s, x, y);
    StartBegins(cfg, deps, s, due, a, 1, a, b, x, y, y);
  }

  lemma RetriedElsewhere(
    cfg: Config, deps: Deps, s: State, a: WorkItem, b: WorkItem, x: string, y: string, later: int, due: int)
    requires Setting(cfg, a, b, x, y) && Hands(deps, a, b, x, y) && AfterTwo(s, a, b, x, later)
    ensures AfterThree(HandleDueRetry(cfg, deps, s, due, a.id, s.retrying[a.id].nonce), a, b, x, y, later, due)
  {
    var entry := s.retrying[a.id];
    var taken := Consume(s, a.id, entry.nonce);
    var ready := taken.(calls := taken.calls + 1);
    ShownForRetry(cfg, deps, taken, a, b, x, y);
    RedispatchedElsewhere(cfg, deps, ready, entry, a, b, x, y, later, due);
    assert HandleDueRetry(cfg, deps, s, due, a.id, entry.nonce) == Redispatch(cfg, deps, ready, due, a.id, entry, a);
  }

  lemma ShownForRetry(cfg: Config, deps: Deps, s: State, a: WorkItem, b: WorkItem, x: string, y: string)
    requires Setting(cfg, a, b, x, y) && Hands(deps, a, b, x, y)
    ensures RefreshRetryItem(cfg, deps, s, a.id) == (s.(calls := s.calls + 1), Ready(a))
  {
  }

  lemma RoundThree(
    cfg: Config, deps: Deps, sv: ServiceState, a: WorkItem, b: WorkItem, x: string, y: string, later: int, due: int)
    requires Setting(cfg, a, b, x, y) && Hands(deps, a, b, x, y) && Resting(cfg, sv) && AfterTwo(sv.state, a, b, x, later)
    ensures a.id in sv.retryTimers
    ensures AfterThree(RunFrom(cfg, deps, sv, Retries(sv, a.id, due)).state, a, b, x, y, later, due)
  {
    RetryRun(cfg, deps, sv, a.id, due);
    RetriedElsewhere(cfg, deps, sv.state, a, b, x, y, later, due);
  }

  /** The first two rounds as one run. */
  lemma TwoRounds(cfg: Config, deps: Deps, a: WorkItem, b: WorkItem, x: string, y: string, start: int, later: int)
    returns (inputs: seq<Service.Input>)
    requires Setting(cfg, a, b, x, y) && Hands(deps, a, b, x, y)
    requires Apart(cfg, start, later) && later - FirstAt(cfg, start) > cfg.stallTimeout
    ensures Timely(cfg, deps, NewService(start), inputs, start) && EndOf(inputs, start) == later
    ensures Resting(cfg, After(cfg, deps, start, inputs))
    ensures AfterTwo(After(cfg, deps, start, inputs).state, a, b, x, later)
  {
    var sv, now := NewService(start), FirstAt(cfg, start);
    RoundOne(cfg, deps, a, b, x, y, start);
    TwoPolls(cfg, deps, start, later);
    var one := RunFrom(cfg, deps, sv, Poll(cfg, sv, now));
    RoundTwo(cfg, deps, one, a, b, x, y, now, later);
    inputs := Poll(cfg, sv, now) + Poll(cfg, one, later);
  }

  /** The three rounds as one run; the retry fires when it can. */
  lemma ThreeRounds(cfg: Config, deps: Deps, a: WorkItem, b: WorkItem, x: string, y: string, start: int, later: int)
    returns (inputs: seq<Service.Input>, due: int)
    requires Setting(cfg, a, b, x, y) && Hands(deps, a, b, x, y)
    requires Apart(cfg, start, later) && later - FirstAt(cfg, start) > cfg.stallTimeout
    ensures Timely(cfg, deps, NewService(start), inputs, start) && EndOf(inputs, start) == due
    ensures AfterThree(After(cfg, deps, start, inputs).state, a, b, x, y, later, due)
  {
    var first := TwoRounds(cfg, deps, a, b, x, y, start, later);
    var two := After(cfg, deps, start, first);
    due := RetryAt(two, a.id, later);
    RoundThree(cfg, deps, two, a, b, x, y, later, due);
    RetryTimely(cfg, deps, two, a.id, due, later);
    TimelyAppend(cfg, deps, NewService(start), first, Retries(two, a.id, due), start);
    inputs := first + Retries(two, a.id, due);
  }

  // ----- the workers meanwhile -----

  /** No worker has done anything yet. */
  predicate NoneBegun(workers: map<nat, Worker>) {
    forall h :: h in workers ==> workers[h].pc.AnnounceHost?
  }

  lemma {:induction false} AbsorbBeginsNone(workers: map<nat, Worker>, more: seq<Action>)
    requires NoneBegun(workers)
    ensures NoneBegun(Absorb(workers, more))
    decreases |more|
  {
    if more != [] {
      AbsorbBeginsNone(workers, more[..|more| - 1]);
    }
  }

  lemma ThreeHandles(s: State, a: WorkItem, b: WorkItem, x: string, y: string, later: int, due: int)
    requires AfterThree(s, a, b, x, y, later, due) && a.id != b.id
    ensures FreshHandles(s.log) && StartsHandle(s.log[0], 1)
  {
    assert forall k :: 0 <= k < 6 && s.log[k].Started? ==> k == 0 || k == 3 || k == 5;
  }

  /** A worker names its host. */
  function Announcement(id: string, host: string): RunEvent {
    RunEvent(RunnerHostSelected, id, None, host, "", "", "", None, NO_TOTALS, None)
  }

  /** The first worker of `a`: stopped, and still waiting to announce its host. */
  lemma StoppedWorker(cfg: Config, sys: System, a: WorkItem, b: WorkItem, x: string, y: string, later: int, due: int)
    requires SystemInv(cfg, sys) && NoneBegun(sys.workers) && a.id != b.id
    requires AfterThree(sys.sv.state, a, b, x, y, later, due)
    ensures 1 in sys.workers && sys.workers[1].cancelled && MayEmit(sys, 1, Announcement(a.id, x))
  {
    var log := sys.sv.state.log;
    ThreeHandles(sys.sv.state, a, b, x, y, later, due);
    assert 1 in sys.workers && StartedAs(log, 1, sys.workers[1]);
    var k :| 0 <= k < |log| && IsStartOf(log[k], 1, sys.workers[1]);
    SameStart(log, 0, k, 1);
    if !sys.workers[1].cancelled { NotStopped(sys.workers, log, 0, 1, 1); }
  }

  lemma TwoOnFirstHost(
    cfg: Config, deps: Deps, sys: System, a: WorkItem, b: WorkItem, x: string, y: string, later: int, due: int)
    requires WellOrdered(deps) && Setting(cfg, a, b, x, y) && AfterThree(sys.sv.state, a, b, x, y, later, due)
    requires MayEmit(sys, 1, Announcement(a.id, x))
    ensures OnHost(Move1(cfg, deps, sys, Emit(1, Announcement(a.id, x), due)).sv.state.running, x) == {a.id, b.id}
  {
    var s, event := sys.sv.state, Announcement(a.id, x);
    EventOnRunning(cfg, s, due, event);
    SyncKeeps(deps, sys.sv.(state := ApplyRunEvent(cfg, s, due, event)), due);
  }

  lemma OneEach(s: State, a: WorkItem, b: WorkItem, x: string, y: string, later: int, due: int)
    requires AfterThree(s, a, b, x, y, later, due) && a.id != b.id && Trim(x) == x && Trim(y) == y && x != y
    ensures forall host :: |OnHost(s.running, host)| <= 1
  {
    forall host ensures |OnHost(s.running, host)| <= 1 {
      SubsetSmaller(OnHost(s.running, host), {if host == x then b.id else a.id});
    }
  }

  /** The run before the event. */
  lemma BeforeTheEvent(cfg: Config, deps: Deps, a: WorkItem, b: WorkItem, x: string, y: string, start: int, later: int)
    returns (moves: seq<Move>, due: int)
    requires Setting(cfg, a, b, x, y) && Hands(deps, a, b, x, y)
    requires Apart(cfg, start, later) && later - FirstAt(cfg, start) > cfg.stallTimeout
    ensures TimelyPlay(cfg, deps, NewSystem(start), moves, start) && PlayEnd(moves, start) == due
    ensures var before := Play(cfg, deps, NewSystem(start), moves);
            && AfterThree(before.sv.state, a, b, x, y, later, due) && SystemInv(cfg, before) && NoneBegun(before.workers)
  {
    var inputs;
    inputs, due := ThreeRounds(cfg, deps, a, b, x, y, start, later);
    moves := Serves(inputs);
    ServesRun(cfg, deps, NewSystem(start), inputs, start);
    AbsorbBeginsNone(map[], Play(cfg, deps, NewSystem(start), moves).sv.state.log);
    SystemSound(cfg, deps, start, moves);
  }

  /** One run to each host, and a stopped worker whose event names an item that runs under another handle. */
  ghost predicate LateEvent(sys: System, event: RunEvent) {
    && FreshHandles(sys.sv.state.log) && (forall host :: |OnHost(sys.sv.state.running, host)| <= 1)
    && MayEmit(sys, 1, event) && sys.workers[1].cancelled && !IsOwn(sys, 1, event)
  }

  /** Such an event, and two runs on one host after it. */
  ghost predicate Overruns(before: System, after: System, event: RunEvent, x: string) {
    LateEvent(before, event) && |OnHost(after.sv.state.running, x)| == 2
  }

  lemma IsLate(cfg: Config, sys: System, a: WorkItem, b: WorkItem, x: string, y: string, later: int, due: int)
    requires Setting(cfg, a, b, x, y)
    requires AfterThree(sys.sv.state, a, b, x, y, later, due) && SystemInv(cfg, sys) && NoneBegun(sys.workers)
    ensures LateEvent(sys, Announcement(a.id, x))
  {
    ThreeHandles(sys.sv.state, a, b, x, y, later, due);
    OneEach(sys.sv.state, a, b, x, y, later, due);
    StoppedWorker(cfg, sys, a, b, x, y, later, due);
    OtherHandle(sys, a, b, x, y, later, due);
  }

  lemma OtherHandle(sys: System, a: WorkItem, b: WorkItem, x: string, y: string, later: int, due: int)
    requires AfterThree(sys.sv.state, a, b, x, y, later, due)
    ensures !IsOwn(sys, 1, Announcement(a.id, x))
  {
  }

  lemma TwoIsTwo(before: System, after: System, event: RunEvent, a: WorkItem, b: WorkItem, x: string)
    requires LateEvent(before, event) && a.id != b.id && OnHost(after.sv.state.running, x) == {a.id, b.id}
    ensures Overruns(before, after, event, x)
  {
    assert |{a.id, b.id}| == 2;
  }

  lemma ShownOverrun(cfg: Config, deps: Deps, a: WorkItem, b: WorkItem, x: string, y: string, start: int, later: int)
    returns (moves: seq<Move>, due: int)
    requires Setting(cfg, a, b, x, y) && Hands(deps, a, b, x, y)
    requires Apart(cfg, start, later) && later - FirstAt(cfg, start) > cfg.stallTimeout
    ensures var event := Announcement(a.id, x);
            && TimelyPlay(cfg, deps, NewSystem(start), moves + [Emit(1, event, due)], start)
            && Overruns(Play(cfg, deps, NewSystem(start), moves),
                        Play(cfg, deps, NewSystem(start), moves + [Emit(1, event, due)]), event, x)
  {
    moves, due := BeforeTheEvent(cfg, deps, a, b, x, y, start, later);
    var before, event := Play(cfg, deps, NewSystem(start), moves), Announcement(a.id, x);
    PlayAppend(cfg, deps, NewSystem(start), moves, [Emit(1, event, due)]);
    PlaySingle(cfg, deps, before, Emit(1, event, due));
    TimelySingle(cfg, deps, before, Emit(1, event, due), due);
    TimelyPlayAppend(cfg, deps, NewSystem(start), moves, [Emit(1, event, due)], start);
    IsLate(cfg, before, a, b, x, y, later, due);
    TwoOnFirstHost(cfg, deps, before, a, b, x, y, later, due);
    TwoIsTwo(before, Move1(cfg, deps, before, Emit(1, event, due)), event, a, b, x);
  }

  /**
   The run: one host to each item, until the stopped first worker of `a` announces the host it was given.
   Then the first host, with room for one, carries two runs.
   */
  lemma LateEventOverruns(cfg: Config, a: WorkItem, b: WorkItem, x: string, y: string, start: int, later: int)
    returns (moves: seq<Move>, due: int)
    requires Setting(cfg, a, b, x, y)
    requires Apart(cfg, start, later) && later - FirstAt(cfg, start) > cfg.stallTimeout
    ensures var deps, event := Handing(a, b, x, y), Announcement(a.id, x);
            && Environment(deps) && EchoesHost(deps) && Limited(deps) && deps.hosts.value.maxPerHost == Some(1)
            && TimelyPlay(cfg, deps, NewSystem(start), moves + [Emit(1, event, due)], start)
            && Overruns(Play(cfg, deps, NewSystem(start), moves),
                        Play(cfg, deps, NewSystem(start), moves + [Emit(1, event, due)]), event, x)
  {
    var deps := Handing(a, b, x, y);
    HandingHands(a, b, x, y);
    HostsLimited(deps, x, y);
    moves, due := ShownOverrun(cfg, deps, a, b, x, y, start, later);
  }
}
