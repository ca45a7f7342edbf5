/** Whole rounds of the service, tick and cycle or one due retry, without their timers: what witness runs are made of. */
module Rounds {
  import opened Domain
  import opened Scheduler
  import opened Safety
  import opened Service
  import opened ServiceSafety
  import opened Runs
  import DispatchPass
  import Frames
  import Hosts
  import Ordering

  lemma {:induction false} RunAppend(cfg: Config, deps: Deps, sv: ServiceState, a: seq<Input>, b: seq<Input>)
    requires WellOrdered(deps)
    ensures RunFrom(cfg, deps, sv, a + b) == RunFrom(cfg, deps, RunFrom(cfg, deps, sv, a), b)
    decreases |a|
  {
    if a == [] {
      assert a + b == b;
    } else {
      assert (a + b)[0] == a[0] && (a + b)[1..] == a[1..] + b;
      RunAppend(cfg, deps, Step(cfg, deps, sv, a[0]), a[1..], b);
    }
  }

  // ----- runs that the clock allows -----

  /** The time of an input that reads the clock; the others happen at once. */
  function TimeOf(input: Input, clock: int): int {
    match input
    case Deliver(_, now) => now
    case Event(_, now) => now
    case Ask(now) => now
    case _ => clock
  }

  function EndOf(inputs: seq<Input>, clock: int): int {
    if inputs == [] then clock else EndOf(inputs[1..], TimeOf(inputs[0], clock))
  }

  /** The clock never goes back, no callback is delivered before its timer is due, and no worker is heard. */
  ghost predicate Timely(cfg: Config, deps: Deps, sv: ServiceState, inputs: seq<Input>, clock: int)
    requires WellOrdered(deps)
    decreases |inputs|
  {
    inputs != [] ==>
      var at := TimeOf(inputs[0], clock);
      && clock <= at && !inputs[0].Event?
      && (inputs[0].Deliver? && inputs[0].timer in sv.timers ==> sv.timers[inputs[0].timer].due <= at)
      && Timely(cfg, deps, Step(cfg, deps, sv, inputs[0]), inputs[1..], at)
  }

  lemma {:induction false} TimelyAppend(
    cfg: Config, deps: Deps, sv: ServiceState, a: seq<Input>, b: seq<Input>, clock: int)
    requires WellOrdered(deps) && Timely(cfg, deps, sv, a, clock)
    requires Timely(cfg, deps, RunFrom(cfg, deps, sv, a), b, EndOf(a, clock))
    ensures Timely(cfg, deps, sv, a + b, clock) && EndOf(a + b, clock) == EndOf(b, EndOf(a, clock))
    ensures RunFrom(cfg, deps, sv, a + b) == RunFrom(cfg, deps, RunFrom(cfg, deps, sv, a), b)
    decreases |a|
  {
    if a == [] {
      assert a + b == b;
    } else {
      assert (a + b)[0] == a[0] && (a + b)[1..] == a[1..] + b;
      TimelyAppend(cfg, deps, Step(cfg, deps, sv, a[0]), a[1..], b, TimeOf(a[0], clock));
    }
  }

  // ----- rounds -----

  /** A timer expires and its callback gets the mutex. */
  function Fires(timer: nat, now: int): seq<Input> {
    [Expire(timer), Deliver(timer, now)]
  }

  lemma FiresRun(cfg: Config, deps: Deps, sv: ServiceState, timer: nat, now: int)
    requires WellOrdered(deps) && timer in sv.timers
    ensures RunFrom(cfg, deps, sv, Fires(timer, now))
            == Call(cfg, deps, sv.(timers := sv.timers - {timer}), now, sv.timers[timer].call)
  {
    var expired := Step(cfg, deps, sv, Expire(timer));
    var delivered := Step(cfg, deps, expired, Deliver(timer, now));
    assert Fires(timer, now)[0] == Expire(timer) && Fires(timer, now)[1..] == [Deliver(timer, now)];
    assert [Deliver(timer, now)][1..] == [];
    assert RunFrom(cfg, deps, expired, [Deliver(timer, now)]) == RunFrom(cfg, deps, delivered, []) == delivered;
    assert expired.(timers := expired.timers - {timer}) == sv.(timers := sv.timers - {timer});
  }

  lemma FiresTimely(cfg: Config, deps: Deps, sv: ServiceState, timer: nat, now: int, clock: int)
    requires WellOrdered(deps) && timer in sv.timers && sv.timers[timer].due <= now && clock <= now
    ensures Timely(cfg, deps, sv, Fires(timer, now), clock) && EndOf(Fires(timer, now), clock) == now
  {
    var expired := Step(cfg, deps, sv, Expire(timer));
    assert Fires(timer, now)[0] == Expire(timer) && Fires(timer, now)[1..] == [Deliver(timer, now)];
    assert [Deliver(timer, now)][1..] == [];
    assert expired.timers[timer].due == sv.timers[timer].due;
    assert Timely(cfg, deps, expired, [Deliver(timer, now)], clock);
    assert EndOf([Deliver(timer, now)], clock) == EndOf([], now) == now;
  }

  /** When a poll must tick for its cycle to come at `now`. */
  function TickAt(cfg: Config, now: int): int {
    now - Max0(cfg.transitionDelay)
  }

  /** A poll: the pending tick, and then the cycle it starts. */
  function Poll(cfg: Config, sv: ServiceState, now: int): seq<Input>
    requires sv.pollTimer.Some?
  {
    Fires(sv.pollTimer.value, TickAt(cfg, now)) + Fires(sv.issued, now)
  }

  /** Since `clock` the next tick has had the time to be due. */
  predicate MayPoll(cfg: Config, sv: ServiceState, now: int, clock: int) {
    clock <= TickAt(cfg, now) && sv.state.nextPollAt.Some? && sv.state.nextPollAt.value <= TickAt(cfg, now)
  }

  /** The state in which a poll's cycle begins. */
  function Begun(s: State): State {
    s.(checking := true, nextPollAt := None)
  }

  /** Open, between two polls, and sound. */
  ghost predicate Resting(cfg: Config, sv: ServiceState) {
    ServiceInv(cfg, sv) && !sv.closed && !sv.state.checking
  }

  lemma TickRun(cfg: Config, deps: Deps, sv: ServiceState, now: int)
    requires Resting(cfg, sv) && WellOrdered(deps)
    ensures var tv := RunFrom(cfg, deps, sv, Fires(sv.pollTimer.value, now));
            && tv.state == Begun(sv.state) && !tv.closed
            && sv.issued in tv.timers
            && tv.timers[sv.issued] == Timer(Cycle(sv.state.pollNonce), now, now + cfg.transitionDelay, false)
  {
    FiresRun(cfg, deps, sv, sv.pollTimer.value, now);
  }

  /** A poll leaves the service resting, with what reconciling, listing and dispatching did. */
  lemma PollRun(cfg: Config, deps: Deps, sv: ServiceState, now: int)
    requires Resting(cfg, sv) && Environment(deps)
    ensures var tv, s := RunFrom(cfg, deps, sv, Poll(cfg, sv, now)), CycleState(cfg, deps, Begun(sv.state), now);
            && Resting(cfg, tv) && Unmoved(s, tv.state) && tv.state.calls == s.calls + 2
            && tv.state.nextPollAt == Some(now + cfg.interval)
  {
    var tick := Fires(sv.pollTimer.value, TickAt(cfg, now));
    var ticked := RunFrom(cfg, deps, sv, tick);
    TickRun(cfg, deps, sv, TickAt(cfg, now));
    RunAppend(cfg, deps, sv, tick, Fires(sv.issued, now));
    RunSound(cfg, deps, sv, Poll(cfg, sv, now));
    CycleRun(cfg, deps, ticked, now, sv.issued);
  }

  lemma PollTimely(cfg: Config, deps: Deps, sv: ServiceState, now: int, clock: int)
    requires Resting(cfg, sv) && Environment(deps) && MayPoll(cfg, sv, now, clock)
    ensures Timely(cfg, deps, sv, Poll(cfg, sv, now), clock) && EndOf(Poll(cfg, sv, now), clock) == now
  {
    var tick := Fires(sv.pollTimer.value, TickAt(cfg, now));
    FiresTimely(cfg, deps, sv, sv.pollTimer.value, TickAt(cfg, now), clock);
    TickRun(cfg, deps, sv, TickAt(cfg, now));
    FiresTimely(cfg, deps, RunFrom(cfg, deps, sv, tick), sv.issued, now, TickAt(cfg, now));
    TimelyAppend(cfg, deps, sv, tick, Fires(sv.issued, now), clock);
  }

  lemma CycleRun(cfg: Config, deps: Deps, sv: ServiceState, now: int, timer: nat)
    requires WellOrdered(deps) && !sv.closed && sv.state.checking
    requires timer in sv.timers && sv.timers[timer].call == Cycle(sv.state.pollNonce)
    ensures var tv, s := RunFrom(cfg, deps, sv, Fires(timer, now)), CycleState(cfg, deps, sv.state, now);
            && Unmoved(s, tv.state) && tv.state.calls == s.calls + 2 && !tv.closed && !tv.state.checking
            && tv.state.nextPollAt == Some(now + cfg.interval)
  {
    FiresRun(cfg, deps, sv, timer, now);
    var s := CycleState(cfg, deps, sv.state, now);
    SyncKeeps(deps, sv.(timers := sv.timers - {timer}, state := s), now);
  }

  lemma AskStep(cfg: Config, deps: Deps, sv: ServiceState, now: int)
    requires WellOrdered(deps)
    ensures RunFrom(cfg, deps, sv, [Ask(now)]) == Refresh(sv, now).0
  {
    assert [Ask(now)][1..] == [];
  }

  /** A refresh request makes the next tick due at once, and leaves everything else. */
  lemma AskRun(cfg: Config, deps: Deps, sv: ServiceState, now: int)
    requires Resting(cfg, sv) && WellOrdered(deps)
    ensures var tv := RunFrom(cfg, deps, sv, [Ask(now)]);
            && Resting(cfg, tv) && Unmoved(sv.state, tv.state) && tv.state.calls == sv.state.calls
            && tv.state.nextPollAt.Some? && tv.state.nextPollAt.value <= now
  {
    RefreshSound(cfg, sv, now);
    AskStep(cfg, deps, sv, now);
  }

  lemma AskTimely(cfg: Config, deps: Deps, sv: ServiceState, now: int, clock: int)
    requires WellOrdered(deps) && clock <= now
    ensures Timely(cfg, deps, sv, [Ask(now)], clock) && EndOf([Ask(now)], clock) == now
  {
    assert [Ask(now)][1..] == [];
    assert EndOf([Ask(now)], clock) == EndOf([], now);
  }

  /** The timer of a queued retry fires. */
  function Retries(sv: ServiceState, id: string, now: int): seq<Input>
    requires id in sv.retryTimers
  {
    Fires(sv.retryTimers[id].timer, now)
  }

  lemma RetryCall(cfg: Config, deps: Deps, sv: ServiceState, id: string, nonce: nat, now: int)
    requires WellOrdered(deps) && !sv.closed && id in sv.state.retrying && sv.state.retrying[id].nonce == nonce
    ensures var tv := Call(cfg, deps, sv, now, RetryTick(id, nonce));
            var s := HandleDueRetry(cfg, deps, sv.state, now, id, nonce);
            && Unmoved(s, tv.state) && tv.state.calls == s.calls + 2
            && !tv.closed && tv.state.checking == sv.state.checking
  {
    var s := HandleDueRetry(cfg, deps, sv.state, now, id, nonce);
    var forgotten :=
      if id in sv.retryTimers && sv.retryTimers[id].nonce == nonce
      then sv.(retryTimers := sv.retryTimers - {id}) else sv;
    SyncKeeps(deps, forgotten.(state := s), now);
    Frames.HandleDueRetryEvolves(cfg, deps, sv.state, now, id, nonce);
  }

  lemma RetryRun(cfg: Config, deps: Deps, sv: ServiceState, id: string, now: int)
    requires Resting(cfg, sv) && Environment(deps) && id in sv.state.retrying
    ensures id in sv.retryTimers
    ensures var tv := RunFrom(cfg, deps, sv, Retries(sv, id, now));
            var s := HandleDueRetry(cfg, deps, sv.state, now, id, sv.state.retrying[id].nonce);
            Resting(cfg, tv) && Unmoved(s, tv.state) && tv.state.calls == s.calls + 2
  {
    var nonce, timer := sv.state.retrying[id].nonce, sv.retryTimers[id].timer;
    FiresRun(cfg, deps, sv, timer, now);
    RetryCall(cfg, deps, sv.(timers := sv.timers - {timer}), id, nonce, now);
    RunSound(cfg, deps, sv, Retries(sv, id, now));
  }

  /** When the retry of an item can fire at the earliest. */
  function RetryAt(sv: ServiceState, id: string, clock: int): int
    requires id in sv.retryTimers && sv.retryTimers[id].timer in sv.timers
  {
    Later(clock, sv.timers[sv.retryTimers[id].timer].due)
  }

  lemma RetryTimely(cfg: Config, deps: Deps, sv: ServiceState, id: string, now: int, clock: int)
    requires Resting(cfg, sv) && WellOrdered(deps) && id in sv.retryTimers && now >= RetryAt(sv, id, clock)
    ensures Timely(cfg, deps, sv, Retries(sv, id, now), clock) && EndOf(Retries(sv, id, now), clock) == now
  {
    FiresTimely(cfg, deps, sv, sv.retryTimers[id].timer, now, clock);
  }

  /** When the first cycle of a service started at `start` can come. */
  function FirstAt(cfg: Config, start: int): int {
    start + Max0(cfg.transitionDelay)
  }

  lemma StartRests(cfg: Config, now: int)
    ensures Resting(cfg, NewService(now)) && Unmoved(EMPTY, NewService(now).state) && NewService(now).state.calls == 0
    ensures NewService(now).state.nextPollAt == Some(now)
  {
    NewServiceSound(cfg, now);
  }

  /** Two polls as early as the clock allows, or later. */
  predicate Apart(cfg: Config, start: int, later: int) {
    FirstAt(cfg, start) <= TickAt(cfg, later) && FirstAt(cfg, start) + cfg.interval <= TickAt(cfg, later)
  }

  lemma TwoPolls(cfg: Config, deps: Deps, start: int, later: int)
    requires Environment(deps) && Apart(cfg, start, later)
    ensures var first := Poll(cfg, NewService(start), FirstAt(cfg, start));
            var one := After(cfg, deps, start, first);
            && Resting(cfg, one) && Timely(cfg, deps, NewService(start), first, start)
            && Timely(cfg, deps, NewService(start), first + Poll(cfg, one, later), start)
            && EndOf(first + Poll(cfg, one, later), start) == later
            && After(cfg, deps, start, first + Poll(cfg, one, later)) == RunFrom(cfg, deps, one, Poll(cfg, one, later))
  {
    var sv, now := NewService(start), FirstAt(cfg, start);
    var first := Poll(cfg, sv, now);
    var one := After(cfg, deps, start, first);
    StartRests(cfg, start);
    PollTimely(cfg, deps, sv, now, start);
    PollRun(cfg, deps, sv, now);
    PollTimely(cfg, deps, one, later, now);
    TimelyAppend(cfg, deps, sv, first, Poll(cfg, one, later), start);
  }

  // ----- an environment for witness runs -----

  /** Some order of a set. */
  ghost function AnyOrder(keys: set<string>): (order: seq<string>)
    ensures Lists(order, keys)
  {
    if keys == {} then []
    else
      var key :| key in keys;
      [key] + AnyOrder(keys - {key})
  }

  /** Some way to sort. */
  function AnySort(): (nat, seq<WorkItem>) -> seq<WorkItem> {
    (n, items) => DispatchPass.SortSooner(items)
  }

  lemma AnySortSorts(deps: Deps)
    requires deps.sort == AnySort()
    ensures DispatchPass.SortsCandidates(deps)
  {
    forall n: nat, items: seq<WorkItem> ensures Ordering.SortsTo(items, deps.sort(n, items), DispatchPass.Sooner) {
      DispatchPass.SortSoonerSorts(items);
    }
  }

  lemma EmptyOrder(deps: Deps, n: nat)
    requires WellOrdered(deps)
    ensures deps.order(n, {}) == []
  {
    WalkLength(deps.order(n, {}), {});
  }

  lemma SingleOrder(deps: Deps, n: nat, id: string)
    requires WellOrdered(deps)
    ensures deps.order(n, {id}) == [id]
  {
    WalkLength(deps.order(n, {id}), {id});
    assert id in deps.order(n, {id});
  }

  lemma NothingStalled(cfg: Config, deps: Deps, s: State, now: int)
    requires WellOrdered(deps) && cfg.stallTimeout > 0 && s.running == map[]
    ensures Reconcile(cfg, deps, s, now) == s.(calls := s.calls + 1)
  {
    assert s.running.Keys == {};
    EmptyOrder(deps, s.calls);
    assert StallEach(cfg, s.(calls := s.calls + 1), now, s.running, []) == s.(calls := s.calls + 1);
  }

  /** The only run is stalled: it is stopped and queued, and then nothing runs. */
  lemma OnlyRunStalled(cfg: Config, deps: Deps, s: State, now: int, id: string)
    requires WellOrdered(deps) && cfg.stallTimeout > 0 && s.running.Keys == {id} && IsStalled(cfg, s.running[id], now)
    ensures Reconcile(cfg, deps, s, now) == StallRun(cfg, s.(calls := s.calls + 1), now, id, s.running[id])
  {
    SingleOrder(deps, s.calls, id);
    var called, ids, run := s.(calls := s.calls + 1), [id], s.running[id];
    var t := StallRun(cfg, called, now, id, run);
    assert ids[1..] == [];
    assert StallEach(cfg, called, now, s.running, ids) == StallEach(cfg, t, now, s.running, []) == t;
    assert t.running == map[];
  }

  /** With no stall detection and nothing running, a cycle only lists and dispatches. */
  lemma IdleCycle(cfg: Config, deps: Deps, s: State, now: int)
    requires WellOrdered(deps) && cfg.stallTimeout <= 0 && s.running == map[]
    ensures CycleState(cfg, deps, s, now) == ListAndDispatch(cfg, deps, s, now)
  {
  }

  /** sort.Slice leaves a single candidate alone. */
  lemma SortsOne(deps: Deps, n: nat, item: WorkItem)
    requires DispatchPass.SortsCandidates(deps)
    ensures deps.sort(n, [item]) == [item]
  {
    var sorted := deps.sort(n, [item]);
    assert Ordering.SortsTo([item], sorted, DispatchPass.Sooner);
    Ordering.PermutationKeeps([item], sorted);
    assert sorted[0] in sorted;
  }

  /** A pass over one listed candidate. */
  lemma OneListed(cfg: Config, deps: Deps, s: State, now: int, item: WorkItem)
    requires DispatchPass.SortsCandidates(deps) && deps.list.Some? && deps.list.value(s.calls) == Ok([item])
    ensures ListAndDispatch(cfg, deps, s, now) == TryCandidate(cfg, deps, s.(calls := s.calls + 2), now, item)
  {
    SortsOne(deps, s.calls + 1, item);
    var tried := s.(calls := s.calls + 2);
    assert ProcessCandidates(cfg, deps, s.(calls := s.calls + 1), now, [item])
           == TryCandidates(cfg, deps, tried, now, [item]);
    assert [item][1..] == [];
    assert TryCandidates(cfg, deps, tried, now, [item])
           == TryCandidates(cfg, deps, TryCandidate(cfg, deps, tried, now, item), now, []);
  }

  /** The host selection newService leaves where no hosts are configured: every dispatch is admitted, on no host. */
  const NO_HOSTS := Hosts.HostSelection([], None)

  lemma NoHostsAdmit(deps: Deps, s: State, preferred: string)
    requires deps.hosts == Some(NO_HOSTS)
    ensures AdmitHost(deps, s, preferred) == (s, Some(""))
  {
  }

  /** The tracker shows an item, and no hosts are configured. */
  ghost predicate Shows(deps: Deps, item: WorkItem) {
    deps.refresh.Some? && deps.hosts == Some(NO_HOSTS) && forall n: nat :: deps.refresh.value(n, [item.id]) == Ok([item])
  }

  lemma TryShown(cfg: Config, deps: Deps, s: State, now: int, item: WorkItem)
    requires Shows(deps, item) && ShouldDispatch(cfg, s, item)
    ensures TryCandidate(cfg, deps, s, now, item) == StartOn(cfg, deps, s.(calls := s.calls + 1), now, item, 0, "").0
  {
    var called := s.(calls := s.calls + 1);
    assert RevalidateCandidate(cfg, deps, s, item.id) == (called, Some(item));
    NoHostsAdmit(deps, called, "");
  }

  /** Only what runs and what is claimed decides. */
  lemma StillDispatched(cfg: Config, s: State, t: State, item: WorkItem)
    requires t.running == s.running && t.claimed == s.claimed
    ensures ShouldDispatch(cfg, s, item) <==> ShouldDispatch(cfg, t, item)
  {
  }

  lemma ListShown(cfg: Config, deps: Deps, s: State, now: int, item: WorkItem)
    requires DispatchPass.SortsCandidates(deps) && Shows(deps, item) && ShouldDispatch(cfg, s, item)
    requires deps.list.Some? && deps.list.value(s.calls) == Ok([item])
    ensures ListAndDispatch(cfg, deps, s, now) == StartOn(cfg, deps, s.(calls := s.calls + 3), now, item, 0, "").0
  {
    var tried := s.(calls := s.calls + 2);
    OneListed(cfg, deps, s, now, item);
    StillDispatched(cfg, s, tried, item);
    TryShown(cfg, deps, tried, now, item);
    assert tried.(calls := tried.calls + 1) == s.(calls := s.calls + 3);
  }

  lemma CycleShown(cfg: Config, deps: Deps, s: State, now: int, item: WorkItem)
    requires WellOrdered(deps) && DispatchPass.SortsCandidates(deps) && Shows(deps, item)
    requires deps.list.Some? && deps.list.value(s.calls) == Ok([item])
    requires cfg.stallTimeout <= 0 && s.running == map[] && ShouldDispatch(cfg, s, item)
    ensures CycleState(cfg, deps, s, now) == StartOn(cfg, deps, s.(calls := s.calls + 3), now, item, 0, "").0
  {
    IdleCycle(cfg, deps, s, now);
    ListShown(cfg, deps, s, now, item);
  }

  /** The poll of a resting service that runs nothing and lists one dispatchable item. */
  lemma PollShown(cfg: Config, deps: Deps, sv: ServiceState, begun: State, now: int, item: WorkItem)
    requires Resting(cfg, sv) && Environment(deps) && DispatchPass.SortsCandidates(deps) && Shows(deps, item)
    requires begun == Begun(sv.state) && deps.list.Some? && deps.list.value(begun.calls) == Ok([item])
    requires cfg.stallTimeout <= 0 && begun.running == map[] && ShouldDispatch(cfg, begun, item)
    ensures var tv := RunFrom(cfg, deps, sv, Poll(cfg, sv, now));
            var t := StartOn(cfg, deps, begun.(calls := begun.calls + 3), now, item, 0, "").0;
            && Resting(cfg, tv) && Unmoved(t, tv.state) && tv.state.calls == t.calls + 2
            && tv.state.nextPollAt == Some(now + cfg.interval)
  {
    CycleShown(cfg, deps, begun, now, item);
    PollBecomes(cfg, deps, sv, now, CycleState(cfg, deps, begun, now));
  }

  lemma PollBecomes(cfg: Config, deps: Deps, sv: ServiceState, now: int, t: State)
    requires Resting(cfg, sv) && Environment(deps) && CycleState(cfg, deps, Begun(sv.state), now) == t
    ensures var tv := RunFrom(cfg, deps, sv, Poll(cfg, sv, now));
            && Resting(cfg, tv) && Unmoved(t, tv.state) && tv.state.calls == t.calls + 2
            && tv.state.nextPollAt == Some(now + cfg.interval)
  {
    PollRun(cfg, deps, sv, now);
  }
}
