/** Runs that overrun a per-state limit: one by a refresh, without any dispatch, and one by a candidate. */
module StateOverruns {
  import opened Domain
  import opened Scheduler
  import opened Safety
  import opened Service
  import opened ServiceSafety
  import opened Runs
  import opened Rounds
  import opened Reconciliation
  import opened StateLimits
  import DispatchPass
  import HostCapacity
  import Ordering

  // ----- a refresh that moves a running item -----

  /** Two candidates, and a tracker that moves the first into the state of the second once both run. */
  ghost function Moving(a: WorkItem, b: WorkItem, moved: WorkItem): Deps {
    Deps(Some((n: nat, ids: seq<string>) =>
           Ok(if ids == [a.id] then [a] else if ids == [b.id] then [b] else if |ids| > 1 then [moved, b] else [])),
         Some((n: nat, request: StartRequest) => Ok(StartResult(None, "", "", ""))),
         Some((n: nat) => Ok([a, b])), Some(NO_HOSTS), None,
         (n: nat, keys: set<string>) => AnyOrder(keys), AnySort())
  }

  /** What the run below needs of such an environment. */
  ghost predicate Moves(deps: Deps, a: WorkItem, b: WorkItem, moved: WorkItem) {
    && Environment(deps) && DispatchPass.SortsCandidates(deps) && Shows(deps, a) && Shows(deps, b)
    && (forall n: nat, ids: seq<string> :: |ids| > 1 ==> deps.refresh.value(n, ids) == Ok([moved, b]))
    && deps.start.Some? && (forall n: nat, request :: deps.start.value(n, request).Ok?)
    && deps.list.Some? && (forall n: nat :: deps.list.value(n) == Ok([a, b]))
  }

  lemma MovingMoves(a: WorkItem, b: WorkItem, moved: WorkItem)
    requires a.id != b.id
    ensures Moves(Moving(a, b, moved), a, b, moved)
  {
    AnySortSorts(Moving(a, b, moved));
  }

  /** Room for one item in the second state, two dispatchable items in different states, and one that moves. */
  ghost predicate Crowding(cfg: Config, a: WorkItem, b: WorkItem, moved: WorkItem) {
    && cfg.stallTimeout <= 0 && cfg.maxConcurrent <= 0 && cfg.StateLimit(b.state) == 1
    && RetryCandidate(cfg, a) && RetryCandidate(cfg, b) && RetryCandidate(cfg, moved)
    && a.id != b.id && moved.id == a.id
    && cfg.Norm(a.state) != cfg.Norm(b.state) && cfg.Norm(moved.state) == cfg.Norm(b.state)
  }

  /** A shown item is started where its state has room. */
  lemma StartShown(cfg: Config, deps: Deps, s: State, now: int, item: WorkItem)
    requires Shows(deps, item) && ShouldDispatch(cfg, s, item)
    requires deps.start.Some? && deps.start.value(s.calls + 1, StartRequest(item, 0, "")).Ok?
    ensures var t := TryCandidate(cfg, deps, s, now, item);
            && t.running.Keys == s.running.Keys + {item.id} && t.claimed.Keys == s.claimed.Keys + {item.id}
            && t.running[item.id].item == item
            && forall id :: id in s.running && id != item.id ==> t.running[id] == s.running[id]
  {
    TryShown(cfg, deps, s, now, item);
  }

  lemma RoomInEmptyState(cfg: Config, s: State, item: WorkItem)
    requires RetryCandidate(cfg, item) && cfg.maxConcurrent <= 0 && item.id !in s.claimed && item.id !in s.running
    requires forall id :: id in s.running ==> cfg.Norm(s.running[id].item.state) != cfg.Norm(item.state)
    ensures ShouldDispatch(cfg, s, item)
  {
    assert InState(cfg, s.running, item.state) == {};
  }

  /** Tried in either order on an idle scheduler, both items start. */
  lemma StartBoth(cfg: Config, deps: Deps, s: State, now: int, x: WorkItem, y: WorkItem)
    requires Shows(deps, x) && Shows(deps, y) && RetryCandidate(cfg, x) && RetryCandidate(cfg, y)
    requires deps.start.Some? && forall n: nat, request :: deps.start.value(n, request).Ok?
    requires cfg.maxConcurrent <= 0 && x.id != y.id && cfg.Norm(x.state) != cfg.Norm(y.state)
    requires s.running == map[] && s.claimed == map[]
    ensures var t := TryCandidates(cfg, deps, s, now, [x, y]);
            && t.running.Keys == t.claimed.Keys == {x.id, y.id}
            && t.running[x.id].item == x && t.running[y.id].item == y
  {
    var first := TryCandidate(cfg, deps, s, now, x);
    RoomInEmptyState(cfg, s, x);
    StartShown(cfg, deps, s, now, x);
    RoomInEmptyState(cfg, first, y);
    StartShown(cfg, deps, first, now, y);
    TryTwo(cfg, deps, s, now, x, y);
  }

  lemma TryTwo(cfg: Config, deps: Deps, s: State, now: int, x: WorkItem, y: WorkItem)
    ensures TryCandidates(cfg, deps, s, now, [x, y])
            == TryCandidate(cfg, deps, TryCandidate(cfg, deps, s, now, x), now, y)
  {
    assert [x, y][1..] == [y] && [y][1..] == [];
    var first := TryCandidate(cfg, deps, s, now, x);
    assert TryCandidates(cfg, deps, first, now, [y])
           == TryCandidates(cfg, deps, TryCandidate(cfg, deps, first, now, y), now, []);
  }

  /** A pass over two listed candidates tries them in one of the two orders. */
  lemma TwoListed(cfg: Config, deps: Deps, s: State, now: int, a: WorkItem, b: WorkItem)
    requires DispatchPass.SortsCandidates(deps) && deps.list.Some? && deps.list.value(s.calls) == Ok([a, b])
    ensures var called := s.(calls := s.calls + 2);
            || ListAndDispatch(cfg, deps, s, now) == TryCandidates(cfg, deps, called, now, [a, b])
            || ListAndDispatch(cfg, deps, s, now) == TryCandidates(cfg, deps, called, now, [b, a])
  {
    var sorted := deps.sort(s.calls + 1, [a, b]);
    assert Ordering.SortsTo([a, b], sorted, DispatchPass.Sooner);
    TwoOrders(a, b, sorted);
    assert ProcessCandidates(cfg, deps, s.(calls := s.calls + 1), now, [a, b])
           == TryCandidates(cfg, deps, s.(calls := s.calls + 2), now, sorted);
  }

  lemma TwoOrders(a: WorkItem, b: WorkItem, sorted: seq<WorkItem>)
    requires multiset(sorted) == multiset([a, b])
    ensures sorted == [a, b] || sorted == [b, a]
  {
    Ordering.PermutationKeeps([a, b], sorted);
    assert |sorted| == 2 && sorted == [sorted[0], sorted[1]];
    assert sorted[0] in multiset([a, b]);
    if sorted[0] == a {
      assert multiset{sorted[1]} == multiset(sorted) - multiset{a} == multiset{b};
      assert sorted[1] in multiset{b};
    } else {
      assert multiset{sorted[1]} == multiset(sorted) - multiset{b} == multiset{a};
      assert sorted[1] in multiset{a};
    }
  }

  ghost predicate BothRun(s: State, a: WorkItem, b: WorkItem) {
    && s.running.Keys == s.claimed.Keys == {a.id, b.id}
    && a.id in s.running && b.id in s.running && s.running[a.id].item == a && s.running[b.id].item == b
  }

  lemma FirstCycle(cfg: Config, deps: Deps, a: WorkItem, b: WorkItem, moved: WorkItem, s: State, now: int)
    requires Crowding(cfg, a, b, moved) && Moves(deps, a, b, moved) && s.running == map[] && s.claimed == map[]
    ensures BothRun(CycleState(cfg, deps, s, now), a, b)
  {
    IdleCycle(cfg, deps, s, now);
    TwoListed(cfg, deps, s, now, a, b);
    StartBoth(cfg, deps, s.(calls := s.calls + 2), now, a, b);
    StartBoth(cfg, deps, s.(calls := s.calls + 2), now, b, a);
  }

  lemma FirstPoll(cfg: Config, deps: Deps, a: WorkItem, b: WorkItem, moved: WorkItem, start: int)
    requires Crowding(cfg, a, b, moved) && Moves(deps, a, b, moved)
    ensures var sv, now := NewService(start), FirstAt(cfg, start);
            var tv := RunFrom(cfg, deps, sv, Poll(cfg, sv, now));
            Resting(cfg, tv) && BothRun(tv.state, a, b) && tv.state.nextPollAt == Some(now + cfg.interval)
  {
    StartRests(cfg, start);
    PollRun(cfg, deps, NewService(start), FirstAt(cfg, start));
    FirstCycle(cfg, deps, a, b, moved, Begun(NewService(start).state), FirstAt(cfg, start));
  }

  lemma MovedVisible(b: WorkItem, moved: WorkItem)
    requires moved.id != b.id
    ensures ById([moved, b]) == map[moved.id := moved, b.id := b]
  {
    assert [moved, b][..1] == [moved] && [moved][..0] == [];
    assert ById([moved]) == ById([])[moved.id := moved];
    assert ById([moved, b]) == ById([moved])[b.id := b];
  }

  lemma BothKept(cfg: Config, a: WorkItem, b: WorkItem, moved: WorkItem, running: map<string, Run>)
    requires Crowding(cfg, a, b, moved) && running.Keys == {a.id, b.id}
    ensures forall id :: id in running ==> Keeps(cfg, ById([moved, b]), id)
    ensures KeptIn(cfg, ById([moved, b]), running, b.state) == {a.id, b.id}
  {
    MovedVisible(b, moved);
  }

  lemma MovedAnswerAt(cfg: Config, deps: Deps, a: WorkItem, b: WorkItem, moved: WorkItem, s: State, id: string)
    requires Crowding(cfg, a, b, moved) && WellOrdered(deps) && Inv(cfg, s) && BothRun(s, a, b)
    ensures var t := ReconcileAnswer(cfg, deps, s, Ok([moved, b]));
            (id in t.running <==> id in s.running) && (id in t.claimed <==> id in s.claimed)
  {
    BothKept(cfg, a, b, moved, s.running);
    ReconcileAnswerExact(cfg, deps, s, Ok([moved, b]), id);
  }

  lemma MovedAnswer(cfg: Config, deps: Deps, a: WorkItem, b: WorkItem, moved: WorkItem, s: State)
    requires Crowding(cfg, a, b, moved) && WellOrdered(deps) && Inv(cfg, s) && BothRun(s, a, b)
    ensures var t := ReconcileAnswer(cfg, deps, s, Ok([moved, b]));
            && t.running.Keys == t.claimed.Keys == {a.id, b.id}
            && InState(cfg, t.running, b.state) == {a.id, b.id}
  {
    var t := ReconcileAnswer(cfg, deps, s, Ok([moved, b]));
    forall id ensures (id in t.running <==> id in s.running) && (id in t.claimed <==> id in s.claimed) {
      MovedAnswerAt(cfg, deps, a, b, moved, s, id);
    }
    SameKeys(s, t);
    KeptAreRunning(cfg, deps, s, Ok([moved, b]), b.state);
    BothKept(cfg, a, b, moved, s.running);
  }

  lemma SameKeys(s: State, t: State)
    requires forall id :: (id in t.running <==> id in s.running) && (id in t.claimed <==> id in s.claimed)
    ensures t.running.Keys == s.running.Keys && t.claimed.Keys == s.claimed.Keys
  {
  }

  lemma BothAsked(cfg: Config, deps: Deps, a: WorkItem, b: WorkItem, moved: WorkItem, s: State)
    requires Moves(deps, a, b, moved) && BothRun(s, a, b) && a.id != b.id
    ensures Scheduler.ReconcileRunning(cfg, deps, s) == ReconcileAnswer(cfg, deps, s, Ok([moved, b]))
  {
    WalkLength(deps.order(s.calls, s.running.Keys), s.running.Keys);
    assert |{a.id, b.id}| == 2;
  }

  /** The two items are refreshed together, and the first one moves. */
  lemma MovedTogether(cfg: Config, deps: Deps, a: WorkItem, b: WorkItem, moved: WorkItem, s: State)
    requires Crowding(cfg, a, b, moved) && Moves(deps, a, b, moved) && Inv(cfg, s) && BothRun(s, a, b)
    ensures var t := Scheduler.ReconcileRunning(cfg, deps, s);
            && t.running.Keys == t.claimed.Keys == {a.id, b.id}
            && InState(cfg, t.running, b.state) == {a.id, b.id}
  {
    BothAsked(cfg, deps, a, b, moved, s);
    MovedAnswer(cfg, deps, a, b, moved, s);
  }

  /** Claimed candidates are passed over. */
  lemma BothClaimed(cfg: Config, deps: Deps, s: State, now: int, x: WorkItem, y: WorkItem)
    requires x.id in s.claimed && y.id in s.claimed
    ensures TryCandidates(cfg, deps, s, now, [x, y]) == s
  {
    TryTwo(cfg, deps, s, now, x, y);
  }

  lemma SecondCycle(cfg: Config, deps: Deps, a: WorkItem, b: WorkItem, moved: WorkItem, s: State, now: int)
    requires Crowding(cfg, a, b, moved) && Moves(deps, a, b, moved) && Inv(cfg, s) && BothRun(s, a, b)
    ensures var t := CycleState(cfg, deps, s, now);
            t.running.Keys == {a.id, b.id} && InState(cfg, t.running, b.state) == {a.id, b.id}
  {
    MovedTogether(cfg, deps, a, b, moved, s);
    var reconciled := Scheduler.ReconcileRunning(cfg, deps, s);
    assert Reconcile(cfg, deps, s, now) == reconciled;
    TwoListed(cfg, deps, reconciled, now, a, b);
    BothClaimed(cfg, deps, reconciled.(calls := reconciled.calls + 2), now, a, b);
    BothClaimed(cfg, deps, reconciled.(calls := reconciled.calls + 2), now, b, a);
  }

  lemma SecondPoll(cfg: Config, deps: Deps, a: WorkItem, b: WorkItem, moved: WorkItem, sv: ServiceState, now: int)
    requires Crowding(cfg, a, b, moved) && Moves(deps, a, b, moved) && Resting(cfg, sv) && BothRun(sv.state, a, b)
    ensures var tv := RunFrom(cfg, deps, sv, Poll(cfg, sv, now));
            tv.state.running.Keys == {a.id, b.id} && !StateLimitsHold(cfg, tv.state.running)
  {
    PollRun(cfg, deps, sv, now);
    SameCore(cfg, sv.state, Begun(sv.state));
    SecondCycle(cfg, deps, a, b, moved, Begun(sv.state), now);
    TwoInOne(cfg, CycleState(cfg, deps, Begun(sv.state), now).running, a, b);
  }

  lemma TwoInOne(cfg: Config, running: map<string, Run>, a: WorkItem, b: WorkItem)
    requires cfg.StateLimit(b.state) == 1 && a.id != b.id && InState(cfg, running, b.state) == {a.id, b.id}
    ensures !StateLimitsHold(cfg, running)
  {
    assert |{a.id, b.id}| == 2;
    assert !WithinStateLimit(cfg, running, b.state);
  }

  lemma OneEach(cfg: Config, s: State, a: WorkItem, b: WorkItem)
    requires BothRun(s, a, b) && cfg.Norm(a.state) != cfg.Norm(b.state)
    ensures StateLimitsHold(cfg, s.running)
  {
    forall state ensures |InState(cfg, s.running, state)| <= 1 {
      var x := if cfg.Norm(state) == cfg.Norm(a.state) then a.id else b.id;
      HostCapacity.SubsetSmaller(InState(cfg, s.running, state), {x});
    }
  }

  /**
   A run that overruns a limit without any dispatch: both items run in their states, and the second poll's
   refresh moves one into the state of the other, which has room for one. The second poll starts nothing.
   */
  lemma RefreshOverrun(cfg: Config, a: WorkItem, b: WorkItem, moved: WorkItem, start: int, later: int)
    returns (first: seq<Input>, more: seq<Input>)
    requires Crowding(cfg, a, b, moved) && Apart(cfg, start, later)
    ensures Environment(Moving(a, b, moved)) && Timely(cfg, Moving(a, b, moved), NewService(start), first + more, start)
    ensures var one := After(cfg, Moving(a, b, moved), start, first).state;
            var two := After(cfg, Moving(a, b, moved), start, first + more).state;
            && StateLimitsHold(cfg, one.running)
            && two.running.Keys == one.running.Keys && !StateLimitsHold(cfg, two.running)
  {
    var deps := Moving(a, b, moved);
    MovingMoves(a, b, moved);
    FirstPoll(cfg, deps, a, b, moved, start);
    TwoPolls(cfg, deps, start, later);
    first := Poll(cfg, NewService(start), FirstAt(cfg, start));
    var one := After(cfg, deps, start, first);
    more := Poll(cfg, one, later);
    OneEach(cfg, one.state, a, b);
    SecondPoll(cfg, deps, a, b, moved, one, later);
  }

  // ----- a candidate refreshed in another state than it was listed in -----

  /** The first poll is shown one item; the others another one, which turns out to be in the first one's state. */
  ghost function Luring(a: WorkItem, b: WorkItem, moved: WorkItem): Deps {
    Deps(Some((n: nat, ids: seq<string>) => Ok(if ids == [a.id] then [moved] else if ids == [b.id] then [b] else [])),
         Some((n: nat, request: StartRequest) => Ok(StartResult(None, "", "", ""))),
         Some((n: nat) => Ok(if n == 0 then [b] else [a])), Some(NO_HOSTS), None,
         (n: nat, keys: set<string>) => AnyOrder(keys), AnySort())
  }

  /** What the run below needs of such an environment. */
  ghost predicate Lures(deps: Deps, a: WorkItem, b: WorkItem, moved: WorkItem) {
    && Environment(deps) && DispatchPass.SortsCandidates(deps) && Shows(deps, b) && Shows(deps, moved)
    && deps.start.Some? && (forall n: nat, request :: deps.start.value(n, request).Ok?)
    && deps.list.Some? && (forall n: nat :: deps.list.value(n) == Ok(if n == 0 then [b] else [a]))
  }

  lemma LuringLures(a: WorkItem, b: WorkItem, moved: WorkItem)
    requires a.id != b.id && moved.id == a.id
    ensures Lures(Luring(a, b, moved), a, b, moved)
  {
    AnySortSorts(Luring(a, b, moved));
  }

  ghost predicate OneRuns(s: State, b: WorkItem) {
    s.running.Keys == s.claimed.Keys == {b.id} && s.running[b.id].item == b && s.calls > 0
  }

  lemma LuredFirst(cfg: Config, deps: Deps, a: WorkItem, b: WorkItem, moved: WorkItem, s: State, now: int)
    requires Crowding(cfg, a, b, moved) && Lures(deps, a, b, moved) && Unmoved(EMPTY, s) && s.calls == 0
    ensures OneRuns(CycleState(cfg, deps, s, now), b)
  {
    RoomInEmptyState(cfg, s, b);
    CycleShown(cfg, deps, s, now, b);
  }

  lemma OneKeptAt(cfg: Config, deps: Deps, b: WorkItem, s: State, id: string)
    requires RetryCandidate(cfg, b) && WellOrdered(deps) && Inv(cfg, s) && OneRuns(s, b)
    ensures var t := ReconcileAnswer(cfg, deps, s, Ok([b]));
            && (id in t.running <==> id in s.running) && (id in t.claimed <==> id in s.claimed)
            && (id in t.running ==> t.running[id].item == b)
  {
    assert [b][..0] == [];
    assert ById([b]) == ById([])[b.id := b];
    ReconcileAnswerExact(cfg, deps, s, Ok([b]), id);
  }

  lemma OneAsked(cfg: Config, deps: Deps, a: WorkItem, b: WorkItem, moved: WorkItem, s: State)
    requires Lures(deps, a, b, moved) && OneRuns(s, b)
    ensures Scheduler.ReconcileRunning(cfg, deps, s) == ReconcileAnswer(cfg, deps, s, Ok([b]))
  {
    SingleOrder(deps, s.calls, b.id);
  }

  /** Refreshed as it is, the only running item stays. */
  lemma OneKept(cfg: Config, deps: Deps, b: WorkItem, s: State)
    requires RetryCandidate(cfg, b) && WellOrdered(deps) && Inv(cfg, s) && OneRuns(s, b)
    ensures OneRuns(ReconcileAnswer(cfg, deps, s, Ok([b])), b)
  {
    var t := ReconcileAnswer(cfg, deps, s, Ok([b]));
    forall id ensures (id in t.running <==> id in s.running) && (id in t.claimed <==> id in s.claimed) {
      OneKeptAt(cfg, deps, b, s, id);
    }
    SameKeys(s, t);
    OneKeptAt(cfg, deps, b, s, b.id);
    AnswerCounts(cfg, deps, s, Ok([b]));
  }

  lemma AnswerCounts(cfg: Config, deps: Deps, s: State, answer: Answer<seq<WorkItem>>)
    requires WellOrdered(deps) && s.calls > 0
    ensures ReconcileAnswer(cfg, deps, s, answer).calls > 0
  {
    var ids := deps.order(s.calls + 2, s.running.Keys);
    assert Lists(ids, s.running.Keys);
    if answer.Ok? { CountsOn(cfg, s.(calls := s.calls + 3), ById(answer.value), s.running, ids); }
  }

  lemma {:induction false} CountsOn(
    cfg: Config, s: State, visible: map<string, WorkItem>, runs: map<string, Run>, ids: seq<string>)
    requires forall id :: id in ids ==> id in runs
    ensures ReconcileEach(cfg, s, visible, runs, ids).calls >= s.calls
    decreases |ids|
  {
    if ids != [] {
      CountsOn(cfg, ReconcileOne(cfg, s, visible, ids[0], runs[ids[0]]), visible, runs, ids[1..]);
    }
  }

  lemma AloneInState(cfg: Config, s: State, a: WorkItem, b: WorkItem, moved: WorkItem)
    requires Crowding(cfg, a, b, moved) && OneRuns(s, b)
    ensures StateLimitsHold(cfg, s.running) && AtStateLimit(cfg, s, moved.state) && ShouldDispatch(cfg, s, a)
  {
    forall state ensures |InState(cfg, s.running, state)| <= 1 {
      HostCapacity.SubsetSmaller(InState(cfg, s.running, state), {b.id});
    }
    assert InState(cfg, s.running, moved.state) == {b.id};
    assert InState(cfg, s.running, a.state) == {};
  }

  lemma LuredSecond(cfg: Config, deps: Deps, a: WorkItem, b: WorkItem, moved: WorkItem, s: State, now: int)
    requires Crowding(cfg, a, b, moved) && Lures(deps, a, b, moved) && Inv(cfg, s) && OneRuns(s, b)
    ensures !StateLimitsHold(cfg, CycleState(cfg, deps, s, now).running)
  {
    var kept := Scheduler.ReconcileRunning(cfg, deps, s);
    var called := kept.(calls := kept.calls + 2);
    ReconcileRunningSound(cfg, deps, s);
    OneAsked(cfg, deps, a, b, moved, s);
    OneKept(cfg, deps, b, s);
    assert Reconcile(cfg, deps, s, now) == kept;
    OneListed(cfg, deps, kept, now, a);
    SameCore(cfg, kept, called);
    AloneInState(cfg, called, a, b, moved);
    CandidateOverrun(cfg, deps, called, now, a, moved);
  }

  lemma LuredPolls(cfg: Config, deps: Deps, a: WorkItem, b: WorkItem, moved: WorkItem, start: int, later: int)
    requires Crowding(cfg, a, b, moved) && Lures(deps, a, b, moved)
    ensures var first := Poll(cfg, NewService(start), FirstAt(cfg, start));
            var one := After(cfg, deps, start, first);
            && Resting(cfg, one) && OneRuns(one.state, b)
            && !StateLimitsHold(cfg, RunFrom(cfg, deps, one, Poll(cfg, one, later)).state.running)
  {
    var sv, now := NewService(start), FirstAt(cfg, start);
    StartRests(cfg, start);
    PollRun(cfg, deps, sv, now);
    LuredFirst(cfg, deps, a, b, moved, Begun(sv.state), now);
    var one := RunFrom(cfg, deps, sv, Poll(cfg, sv, now));
    PollRun(cfg, deps, one, later);
    SameCore(cfg, one.state, Begun(one.state));
    LuredSecond(cfg, deps, a, b, moved, Begun(one.state), later);
  }

  /**
   A run that overruns a limit by a dispatch: the second poll is shown an item in a state with room, and
   starts it after a refresh has found it in the state of the running item, which has room for one.
   */
  lemma CandidateOverrunRun(cfg: Config, a: WorkItem, b: WorkItem, moved: WorkItem, start: int, later: int)
    returns (first: seq<Input>, more: seq<Input>)
    requires Crowding(cfg, a, b, moved) && Apart(cfg, start, later)
    ensures Environment(Luring(a, b, moved)) && Timely(cfg, Luring(a, b, moved), NewService(start), first + more, start)
    ensures StateLimitsHold(cfg, After(cfg, Luring(a, b, moved), start, first).state.running)
    ensures !StateLimitsHold(cfg, After(cfg, Luring(a, b, moved), start, first + more).state.running)
  {
    var deps := Luring(a, b, moved);
    LuringLures(a, b, moved);
    LuredPolls(cfg, deps, a, b, moved, start, later);
    TwoPolls(cfg, deps, start, later);
    first := Poll(cfg, NewService(start), FirstAt(cfg, start));
    var one := After(cfg, deps, start, first);
    more := Poll(cfg, one, later);
    AloneInState(cfg, one.state, a, b, moved);
  }
}
