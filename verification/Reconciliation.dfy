/** What the two reconciliation passes leave, whatever order Go walks the map in. */
module Reconciliation {
  import opened Text
  import opened Domain
  import opened Scheduler
  import opened Lifecycle
  import opened Safety

  /** The stopRun calls made for one item. */
  function StopsFor(log: seq<Action>, id: string): seq<Action> {
    if log == [] then []
    else
      var last := log[|log| - 1];
      StopsFor(log[..|log| - 1], id) + (if last.StopCalled? && last.id == id then [last] else [])
  }

  lemma StopsForSnoc(log: seq<Action>, action: Action)
    ensures forall id :: StopsFor(log + [action], id)
                         == StopsFor(log, id) + (if action.StopCalled? && action.id == id then [action] else [])
  {
    assert (log + [action])[..|log|] == log;
  }

  /** The stop intent a dropped run gets. */
  function StopIntent(cfg: Config, visible: map<string, WorkItem>, run: Run): Action {
    StopCalled(run.item.id, run.item.identifier, run.handle, Cleans(cfg, visible, run.item.id))
  }

  /** What one item's share of the state is after reconciliation, said without the loop. */
  ghost predicate Reconciled(
    cfg: Config, visible: map<string, WorkItem>, s: State, t: State, id: string)
  {
    var kept := id !in s.running || Keeps(cfg, visible, id);
    && (id in t.running <==> id in s.running && kept)
    && (id in t.running ==> t.running[id] == s.running[id].(item := visible[id]))
    && (id in t.claimed <==> id in s.claimed && kept)
    && (id in t.claimed ==> t.claimed[id] == s.claimed[id])
    && (id in t.retrying <==> id in s.retrying)
    && (id in t.retrying ==> t.retrying[id] == s.retrying[id])
    && StopsFor(t.log, id)
       == StopsFor(s.log, id) + (if kept then [] else [StopIntent(cfg, visible, s.running[id])])
  }

  ghost predicate Untouched(s: State, t: State, id: string) {
    && (id in t.running <==> id in s.running) && (id in t.running ==> t.running[id] == s.running[id])
    && (id in t.claimed <==> id in s.claimed) && (id in t.claimed ==> t.claimed[id] == s.claimed[id])
    && (id in t.retrying <==> id in s.retrying) && (id in t.retrying ==> t.retrying[id] == s.retrying[id])
    && StopsFor(t.log, id) == StopsFor(s.log, id)
  }

  lemma DroppedExact(cfg: Config, s: State, visible: map<string, WorkItem>, id: string)
    requires Inv(cfg, s) && id in s.running && !Keeps(cfg, visible, id)
    ensures Reconciled(cfg, visible, s, ReconcileOne(cfg, s, visible, id, s.running[id]), id)
    ensures forall other :: other != id ==>
              Untouched(s, ReconcileOne(cfg, s, visible, id, s.running[id]), other)
  {
    assert Sound(s, id);
    var run := s.running[id];
    var dropped := s.log + [Dropped(id)];
    StopsForSnoc(s.log, Dropped(id));
    StopsForSnoc(dropped, StopIntent(cfg, visible, run));
    var t := InvalidateRun(s, run, Cleans(cfg, visible, id));
    assert t.running == s.running - {id} && t.claimed == s.claimed - {id} && t.retrying == s.retrying - {id};
    assert t.log == dropped + [StopIntent(cfg, visible, run)];
  }

  lemma KeptExact(cfg: Config, s: State, visible: map<string, WorkItem>, id: string)
    requires Inv(cfg, s) && id in s.running && Keeps(cfg, visible, id)
    ensures Reconciled(cfg, visible, s, ReconcileOne(cfg, s, visible, id, s.running[id]), id)
    ensures forall other :: other != id ==>
              Untouched(s, ReconcileOne(cfg, s, visible, id, s.running[id]), other)
  {
    assert StopsFor(s.log, id) + [] == StopsFor(s.log, id);
  }

  lemma ReconcileOneExact(cfg: Config, s: State, visible: map<string, WorkItem>, id: string)
    requires Inv(cfg, s) && id in s.running
    ensures Reconciled(cfg, visible, s, ReconcileOne(cfg, s, visible, id, s.running[id]), id)
    ensures forall other :: other != id ==>
              Untouched(s, ReconcileOne(cfg, s, visible, id, s.running[id]), other)
  {
    if Keeps(cfg, visible, id) {
      KeptExact(cfg, s, visible, id);
    } else {
      DroppedExact(cfg, s, visible, id);
    }
  }

  lemma {:induction false} ReconcileEachExact(
    cfg: Config, s: State, items: seq<WorkItem>, runs: map<string, Run>, ids: seq<string>)
    requires Inv(cfg, s)
    requires forall i, j :: 0 <= i < j < |ids| ==> ids[i] != ids[j]
    requires forall id :: id in ids ==> id in runs && id in s.running && s.running[id] == runs[id]
    ensures var t := ReconcileEach(cfg, s, ById(items), runs, ids);
            && (forall id :: id in ids ==> Reconciled(cfg, ById(items), s, t, id))
            && (forall id :: id !in ids ==> Untouched(s, t, id))
    decreases |ids|
  {
    if ids != [] {
      var visible := ById(items);
      assert ids[0] in ids;
      forall id | id in ids[1..] ensures id != ids[0] {}
      var next := ReconcileOne(cfg, s, visible, ids[0], runs[ids[0]]);
      ReconcileOneSound(cfg, s, items, ids[0]);
      ReconcileOneExact(cfg, s, visible, ids[0]);
      ReconcileEachExact(cfg, next, items, runs, ids[1..]);
      var t := ReconcileEach(cfg, next, visible, runs, ids[1..]);
      forall id | id in ids ensures Reconciled(cfg, visible, s, t, id) {
        if id == ids[0] {
          assert Untouched(next, t, id);
        } else {
          assert id in ids[1..] && Untouched(s, next, id);
        }
      }
      forall id | id !in ids ensures Untouched(s, t, id) {
        assert id !in ids[1..] && Untouched(s, next, id) && Untouched(next, t, id);
      }
    }
  }

  lemma CountIrrelevant(
    cfg: Config, visible: map<string, WorkItem>, s: State, n: nat, t: State, id: string)
    requires if id in s.running then Reconciled(cfg, visible, s.(calls := n), t, id)
             else Untouched(s.(calls := n), t, id)
    ensures Reconciled(cfg, visible, s, t, id)
  {
    assert StopsFor(s.log, id) + [] == StopsFor(s.log, id);
  }

  lemma ReconcileAllExact(
    cfg: Config, s: State, n: nat, items: seq<WorkItem>, ids: seq<string>, id: string)
    requires Inv(cfg, s) && Lists(ids, s.running.Keys)
    ensures Reconciled(cfg, ById(items), s,
                       ReconcileEach(cfg, s.(calls := n), ById(items), s.running, ids), id)
  {
    var called := s.(calls := n);
    SameCore(cfg, s, called);
    ReconcileEachExact(cfg, called, items, s.running, ids);
    var t := ReconcileEach(cfg, called, ById(items), s.running, ids);
    assert id in ids <==> id in s.running;
    CountIrrelevant(cfg, ById(items), s, n, t, id);
  }

  lemma ReconcileAnswerExact(cfg: Config, deps: Deps, s: State, answer: Answer<seq<WorkItem>>, id: string)
    requires Inv(cfg, s) && WellOrdered(deps) && answer.Ok?
    ensures Reconciled(cfg, ById(answer.value), s, ReconcileAnswer(cfg, deps, s, answer), id)
  {
    var ids := AnswerWalk(cfg, deps, s, answer);
    ReconcileAllExact(cfg, s, s.calls + 3, answer.value, ids, id);
  }

  /** The walk behind the pass over an answer. */
  lemma AnswerWalk(cfg: Config, deps: Deps, s: State, answer: Answer<seq<WorkItem>>) returns (ids: seq<string>)
    requires WellOrdered(deps) && answer.Ok?
    ensures Lists(ids, s.running.Keys)
    ensures ReconcileAnswer(cfg, deps, s, answer)
            == ReconcileEach(cfg, s.(calls := s.calls + 3), ById(answer.value), s.running, ids)
  {
    ids := deps.order(s.calls + 2, s.running.Keys);
    assert Lists(ids, s.running.Keys);
  }

  /**
   After a successful refresh exactly the visible, active, non-terminal, not unroutable runs remain, with
   their refreshed items; every other run has lost its claim and got one stop intent, with cleanup if and
   only if its item is terminal.
   */
  lemma ReconcileRunningExact(cfg: Config, deps: Deps, s: State)
    requires Inv(cfg, s) && WellOrdered(deps) && s.running != map[] && deps.refresh.Some?
    requires deps.refresh.value(s.calls + 1, deps.order(s.calls, s.running.Keys)).Ok?
    ensures var visible := ById(deps.refresh.value(s.calls + 1, deps.order(s.calls, s.running.Keys)).value);
            forall id :: Reconciled(cfg, visible, s, ReconcileRunning(cfg, deps, s), id)
  {
    var answer := deps.refresh.value(s.calls + 1, deps.order(s.calls, s.running.Keys));
    forall id ensures Reconciled(cfg, ById(answer.value), s, ReconcileRunning(cfg, deps, s), id) {
      ReconcileAnswerExact(cfg, deps, s, answer, id);
    }
  }

  /** The loop's order shows nowhere but in the order of the stop calls. */
  lemma ReconcileOrderIrrelevant(
    cfg: Config, s: State, items: seq<WorkItem>, one: seq<string>, other: seq<string>)
    requires Inv(cfg, s) && Lists(one, s.running.Keys) && Lists(other, s.running.Keys)
    ensures var t := ReconcileEach(cfg, s, ById(items), s.running, one);
            var u := ReconcileEach(cfg, s, ById(items), s.running, other);
            && t.running == u.running && t.claimed == u.claimed && t.retrying == u.retrying
            && (forall id :: StopsFor(t.log, id) == StopsFor(u.log, id))
  {
    ReconcileEachExact(cfg, s, items, s.running, one);
    ReconcileEachExact(cfg, s, items, s.running, other);
    var t := ReconcileEach(cfg, s, ById(items), s.running, one);
    var u := ReconcileEach(cfg, s, ById(items), s.running, other);
    forall id ensures Untouched(t, u, id) {
      assert id in one <==> id in other;
      SameShare(cfg, ById(items), s, t, u, id);
    }
    SameMaps(t, u);
  }

  lemma SameMaps(t: State, u: State)
    requires forall id :: Untouched(t, u, id)
    ensures t.running == u.running && t.claimed == u.claimed && t.retrying == u.retrying
    ensures forall id :: StopsFor(t.log, id) == StopsFor(u.log, id)
  {
    forall id
      ensures (id in t.running <==> id in u.running) && (id in t.running ==> t.running[id] == u.running[id])
      ensures (id in t.claimed <==> id in u.claimed) && (id in t.claimed ==> t.claimed[id] == u.claimed[id])
      ensures (id in t.retrying <==> id in u.retrying) && (id in t.retrying ==> t.retrying[id] == u.retrying[id])
      ensures StopsFor(t.log, id) == StopsFor(u.log, id)
    {
      assert Untouched(t, u, id);
    }
  }

  lemma SameShare(cfg: Config, visible: map<string, WorkItem>, s: State, t: State, u: State, id: string)
    requires if id in s.running then Reconciled(cfg, visible, s, t, id) && Reconciled(cfg, visible, s, u, id)
             else Untouched(s, t, id) && Untouched(s, u, id)
    ensures Untouched(t, u, id)
  {
  }

  // ----- said of the tracker's answer alone -----

  /** The last item of the answer with the ID. */
  predicate ShownLast(items: seq<WorkItem>, id: string, k: nat) {
    k < |items| && items[k].id == id && forall j :: k < j < |items| ==> items[j].id != id
  }

  lemma {:induction false} ByIdShows(items: seq<WorkItem>, id: string, k: nat)
    requires ShownLast(items, id, k)
    ensures id in ById(items) && ById(items)[id] == items[k]
  {
    var n := |items| - 1;
    if k < n {
      assert items[n].id != id;
      assert ShownLast(items[..n], id, k);
      ByIdShows(items[..n], id, k);
    }
  }

  lemma {:induction false} ByIdHides(items: seq<WorkItem>, id: string)
    requires forall j :: 0 <= j < |items| ==> items[j].id != id
    ensures id !in ById(items)
  {
    if items != [] {
      ByIdHides(items[..|items| - 1], id);
    }
  }

  /** The run and its claim are gone, and it was stopped once with its handle. */
  ghost predicate DroppedWith(s: State, t: State, id: string, cleanup: bool) {
    && id in s.running && id !in t.running && id !in t.claimed
    && StopsFor(t.log, id)
       == StopsFor(s.log, id) + [StopCalled(id, s.running[id].item.identifier, s.running[id].handle, cleanup)]
  }

  /** A running item the answer does not show is dropped, without cleanup. */
  lemma HiddenIsDropped(cfg: Config, deps: Deps, s: State, items: seq<WorkItem>, id: string)
    requires Inv(cfg, s) && WellOrdered(deps) && id in s.running
    requires forall j :: 0 <= j < |items| ==> items[j].id != id
    ensures DroppedWith(s, ReconcileAnswer(cfg, deps, s, Ok(items)), id, false)
  {
    assert Sound(s, id);
    ByIdHides(items, id);
    ReconcileAnswerExact(cfg, deps, s, Ok(items), id);
  }

  /**
   A running item the answer shows is dropped with cleanup if it is shown terminal, without if it is shown
   inactive or unroutable, and else runs on, as it was but for the item it is shown as.
   */
  lemma ShownDecides(cfg: Config, deps: Deps, s: State, items: seq<WorkItem>, id: string, k: nat)
    requires Inv(cfg, s) && WellOrdered(deps) && id in s.running && ShownLast(items, id, k)
    ensures var t, state := ReconcileAnswer(cfg, deps, s, Ok(items)), cfg.lower(Trim(items[k].state));
            if state in cfg.terminalStates then DroppedWith(s, t, id, true)
            else if state !in cfg.activeStates || items[k].routable == Some(false) then DroppedWith(s, t, id, false)
            else
              && id in t.running && t.running[id] == s.running[id].(item := items[k])
              && id in s.claimed && id in t.claimed && t.claimed[id] == s.claimed[id]
              && StopsFor(t.log, id) == StopsFor(s.log, id)
  {
    assert Sound(s, id);
    ByIdShows(items, id, k);
    ReconcileAnswerExact(cfg, deps, s, Ok(items), id);
    assert StopsFor(s.log, id) + [] == StopsFor(s.log, id);
  }

  // ----- stalled runs -----

  /** A stalled run is stopped once without cleanup and queued for its next attempt, its claim kept; nothing else changes. */
  ghost predicate StallHandled(cfg: Config, s: State, t: State, now: int, run: Run, id: string) {
    && id !in t.running
    && (id in t.claimed <==> id in s.claimed) && (id in t.claimed ==> t.claimed[id] == s.claimed[id])
    && id in t.retrying && t.retrying[id].itemId == id
    && t.retrying[id].attempt == NextFailureAttempt(run.attempt)
    && t.retrying[id].cause == Stalled(now - LastActivity(run))
    && t.retrying[id].dueAt
       == now + Scheduler.Backoff.FailureRetryDelay(NextFailureAttempt(run.attempt), cfg.maxRetryBackoff)
    && s.retryNonce < t.retrying[id].nonce
    && t.retrying[id].workerHost == run.workerHost && t.retrying[id].workspacePath == run.workspacePath
    && StopsFor(t.log, id) == StopsFor(s.log, id) + [StopCalled(id, run.item.identifier, run.handle, false)]
  }

  ghost predicate Stilled(cfg: Config, s: State, t: State, now: int, id: string) {
    if id in s.running && IsStalled(cfg, s.running[id], now) then StallHandled(cfg, s, t, now, s.running[id], id)
    else Untouched(s, t, id)
  }

  lemma StallRunExact(cfg: Config, s: State, now: int, id: string, run: Run)
    ensures StallHandled(cfg, s, StallRun(cfg, s, now, id, run), now, run, id)
    ensures forall other :: other != id ==> Untouched(s, StallRun(cfg, s, now, id, run), other)
  {
    var stop := StopCalled(id, run.item.identifier, run.handle, false);
    var n := NextFailureAttempt(run.attempt);
    var queued := Queued(id, n, s.retryNonce + 1, Stalled(now - LastActivity(run)));
    StopsForSnoc(s.log, stop);
    StopsForSnoc(s.log + [stop], queued);
    assert StallRun(cfg, s, now, id, run).log == s.log + [stop] + [queued];
  }

  lemma StallOneExact(cfg: Config, s: State, now: int, id: string, run: Run)
    requires id in s.running && s.running[id] == run
    ensures var t := if IsStalled(cfg, run, now) then StallRun(cfg, s, now, id, run) else s;
            Stilled(cfg, s, t, now, id) && forall other :: other != id ==> Untouched(s, t, other)
  {
    if IsStalled(cfg, run, now) { StallRunExact(cfg, s, now, id, run); }
  }

  lemma UntouchedThen(cfg: Config, s: State, next: State, t: State, now: int, id: string)
    requires Untouched(s, next, id) && s.retryNonce <= next.retryNonce
    ensures Stilled(cfg, next, t, now, id) ==> Stilled(cfg, s, t, now, id)
    ensures Untouched(next, t, id) ==> Untouched(s, t, id)
  {
  }

  lemma StilledThen(cfg: Config, s: State, next: State, t: State, now: int, id: string)
    requires Stilled(cfg, s, next, now, id) && Untouched(next, t, id)
    ensures Stilled(cfg, s, t, now, id)
  {
  }

  lemma {:induction false} StallEachExact(cfg: Config, s: State, now: int, runs: map<string, Run>, ids: seq<string>, id: string)
    requires forall i, j :: 0 <= i < j < |ids| ==> ids[i] != ids[j]
    requires forall x :: x in ids ==> x in runs && x in s.running && s.running[x] == runs[x]
    ensures var t := StallEach(cfg, s, now, runs, ids);
            if id in ids then Stilled(cfg, s, t, now, id) else Untouched(s, t, id)
    decreases |ids|
  {
    if ids != [] {
      assert ids[0] in ids;
      var run := runs[ids[0]];
      var next := if IsStalled(cfg, run, now) then StallRun(cfg, s, now, ids[0], run) else s;
      StallOneExact(cfg, s, now, ids[0], run);
      forall x | x in ids[1..] ensures x != ids[0] && x in next.running && next.running[x] == runs[x] {
        assert Untouched(s, next, x);
      }
      StallEachExact(cfg, next, now, runs, ids[1..], id);
      var t := StallEach(cfg, next, now, runs, ids[1..]);
      if id == ids[0] {
        StilledThen(cfg, s, next, t, now, id);
      } else {
        UntouchedThen(cfg, s, next, t, now, id);
      }
    }
  }

  /** Exactly the runs idle for longer than the timeout are stopped and queued, in any walk of the map. */
  lemma ReconcileStalledExact(cfg: Config, deps: Deps, s: State, now: int, id: string)
    requires WellOrdered(deps) && cfg.stallTimeout > 0
    ensures Stilled(cfg, s, ReconcileStalled(cfg, deps, s, now), now, id)
  {
    var ids := deps.order(s.calls, s.running.Keys);
    assert Lists(ids, s.running.Keys);
    StallEachExact(cfg, s.(calls := s.calls + 1), now, s.running, ids, id);
  }
}
