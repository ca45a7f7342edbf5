/** What no scheduling operation touches, and how the retry queue may change under one. */
module Frames {
  import opened Text
  import opened Domain
  import opened Scheduler
  import opened Safety

  /**
   From `s` to `t` the history only grows, polling is untouched, and every queued retry is either the
   one that was queued before or carries a nonce issued since.
   */
  ghost predicate Evolves(s: State, t: State) {
    && s.log <= t.log
    && t.pollNonce == s.pollNonce && t.checking == s.checking && t.nextPollAt == s.nextPollAt
    && s.retryNonce <= t.retryNonce
    && (forall id :: id in t.retrying ==>
          (id in s.retrying && t.retrying[id] == s.retrying[id]) || t.retrying[id].nonce > s.retryNonce)
  }

  lemma EvolvesTransitive(s: State, t: State, u: State)
    requires Evolves(s, t) && Evolves(t, u)
    ensures Evolves(s, u)
  {
  }

  lemma StartOnEvolves(
    cfg: Config, deps: Deps, s: State, now: int, item: WorkItem, attempt: int, host: string)
    ensures Evolves(s, StartOn(cfg, deps, s, now, item, attempt, host).0)
  {
  }

  lemma DispatchEvolves(
    cfg: Config, deps: Deps, s: State, now: int, item: WorkItem, attempt: int, preferred: string)
    ensures Evolves(s, DispatchItem(cfg, deps, s, now, item, attempt, preferred).0)
  {
    var (admitted, host) := AdmitHost(deps, s, preferred);
    if host.Some? {
      StartOnEvolves(cfg, deps, admitted, now, item, attempt, host.value);
    }
  }

  lemma TryCandidateEvolves(cfg: Config, deps: Deps, s: State, now: int, item: WorkItem)
    ensures Evolves(s, TryCandidate(cfg, deps, s, now, item))
  {
    var (called, refreshed) := RevalidateCandidate(cfg, deps, s, item.id);
    if refreshed.Some? {
      DispatchEvolves(cfg, deps, called, now, refreshed.value, 0, "");
    }
  }

  lemma {:induction false} TryCandidatesEvolve(cfg: Config, deps: Deps, s: State, now: int, items: seq<WorkItem>)
    ensures Evolves(s, TryCandidates(cfg, deps, s, now, items))
    decreases |items|
  {
    if items != [] {
      var t := TryCandidate(cfg, deps, s, now, items[0]);
      TryCandidateEvolves(cfg, deps, s, now, items[0]);
      TryCandidatesEvolve(cfg, deps, t, now, items[1..]);
      EvolvesTransitive(s, t, TryCandidates(cfg, deps, t, now, items[1..]));
    }
  }

  lemma ProcessCandidatesEvolves(cfg: Config, deps: Deps, s: State, now: int, candidates: seq<WorkItem>)
    ensures Evolves(s, ProcessCandidates(cfg, deps, s, now, candidates))
  {
    TryCandidatesEvolve(cfg, deps, s.(calls := s.calls + 1), now, deps.sort(s.calls, candidates));
  }

  lemma ConcludeEvolves(cfg: Config, s: State, now: int, event: RunEvent, run: Run)
    ensures Evolves(s, Conclude(cfg, s, now, event, run))
  {
  }

  lemma ApplyRunEventEvolves(cfg: Config, s: State, now: int, event: RunEvent)
    ensures Evolves(s, ApplyRunEvent(cfg, s, now, event))
  {
    if event.itemId in s.running {
      var counted := Account(s, event);
      var run := Stamp(s.running[event.itemId], event);
      ConcludeEvolves(cfg, counted, now, event, run);
      EvolvesTransitive(s, counted, Conclude(cfg, counted, now, event, run));
    }
  }

  lemma RequeueEvolves(
    cfg: Config, s: State, now: int, id: string, entry: Retry, identifier: string, cause: Cause)
    ensures Evolves(s, Requeue(cfg, s, now, id, entry, identifier, cause))
  {
  }

  lemma RedispatchEvolves(
    cfg: Config, deps: Deps, s: State, now: int, id: string, entry: Retry, item: WorkItem)
    ensures Evolves(s, Redispatch(cfg, deps, s, now, id, entry, item))
  {
    RequeueEvolves(cfg, s, now, id, entry, item.identifier, NoSlots);
    var dispatched := DispatchItem(cfg, deps, s, now, item, entry.attempt, entry.workerHost).0;
    DispatchEvolves(cfg, deps, s, now, item, entry.attempt, entry.workerHost);
    RequeueEvolves(cfg, dispatched, now, id, entry, item.identifier, NoSlots);
    EvolvesTransitive(s, dispatched, Requeue(cfg, dispatched, now, id, entry, item.identifier, NoSlots));
  }

  lemma SettleEvolves(
    cfg: Config, deps: Deps, s: State, now: int, id: string, entry: Retry, status: RetryStatus)
    ensures Evolves(s, Settle(cfg, deps, s, now, id, entry, status))
  {
    RequeueEvolves(cfg, s, now, id, entry, entry.identifier, RefreshFailed);
    if status.Ready? {
      RedispatchEvolves(cfg, deps, s, now, id, entry, status.item);
    }
  }

  /** Taking a current retry leaves nothing queued under its old nonce; a stale nonce changes nothing. */
  lemma HandleDueRetryEvolves(cfg: Config, deps: Deps, s: State, now: int, id: string, nonce: nat)
    ensures if id in s.retrying && s.retrying[id].nonce == nonce
            then Evolves(Consume(s, id, nonce), HandleDueRetry(cfg, deps, s, now, id, nonce))
            else HandleDueRetry(cfg, deps, s, now, id, nonce) == s
  {
    if id in s.retrying && s.retrying[id].nonce == nonce {
      var taken := Consume(s, id, nonce);
      var (due, status) := RefreshRetryItem(cfg, deps, taken, id);
      SettleEvolves(cfg, deps, due, now, id, s.retrying[id], status);
      EvolvesTransitive(taken, due, Settle(cfg, deps, due, now, id, s.retrying[id], status));
    }
  }

  lemma StallRunEvolves(cfg: Config, s: State, now: int, id: string, run: Run)
    ensures Evolves(s, StallRun(cfg, s, now, id, run))
  {
  }

  lemma {:induction false} StallEachEvolves(
    cfg: Config, s: State, now: int, runs: map<string, Run>, ids: seq<string>)
    requires forall id :: id in ids ==> id in runs
    ensures Evolves(s, StallEach(cfg, s, now, runs, ids))
    decreases |ids|
  {
    if ids != [] {
      var run := runs[ids[0]];
      var t := if IsStalled(cfg, run, now) then StallRun(cfg, s, now, ids[0], run) else s;
      StallRunEvolves(cfg, s, now, ids[0], run);
      StallEachEvolves(cfg, t, now, runs, ids[1..]);
      EvolvesTransitive(s, t, StallEach(cfg, t, now, runs, ids[1..]));
    }
  }

  lemma ReconcileStalledEvolves(cfg: Config, deps: Deps, s: State, now: int)
    requires WellOrdered(deps)
    ensures Evolves(s, ReconcileStalled(cfg, deps, s, now))
  {
    var ids := deps.order(s.calls, s.running.Keys);
    assert Lists(ids, s.running.Keys);
    StallEachEvolves(cfg, s.(calls := s.calls + 1), now, s.running, ids);
  }

  lemma {:induction false} ReconcileEachEvolves(
    cfg: Config, s: State, visible: map<string, WorkItem>, runs: map<string, Run>, ids: seq<string>)
    requires forall id :: id in ids ==> id in runs
    ensures Evolves(s, ReconcileEach(cfg, s, visible, runs, ids))
    decreases |ids|
  {
    if ids != [] {
      var t := ReconcileOne(cfg, s, visible, ids[0], runs[ids[0]]);
      ReconcileEachEvolves(cfg, t, visible, runs, ids[1..]);
      EvolvesTransitive(s, t, ReconcileEach(cfg, t, visible, runs, ids[1..]));
    }
  }

  lemma ReconcileRunningEvolves(cfg: Config, deps: Deps, s: State)
    requires WellOrdered(deps)
    ensures Evolves(s, ReconcileRunning(cfg, deps, s))
  {
    if s.running != map[] && deps.refresh.Some? {
      var answer := deps.refresh.value(s.calls + 1, deps.order(s.calls, s.running.Keys));
      var ids := deps.order(s.calls + 2, s.running.Keys);
      assert Lists(ids, s.running.Keys);
      if answer.Ok? {
        ReconcileEachEvolves(cfg, s.(calls := s.calls + 3), ById(answer.value), s.running, ids);
      }
    }
  }
}
