/** The order within a poll cycle: what reconciling frees, the same cycle's dispatch can use. */
module Cycles {
  import opened Text
  import opened Domain
  import opened Scheduler
  import opened Safety
  import opened Service
  import opened ServiceSafety
  import opened Rounds
  import opened Reconciliation
  import opened Eligibility
  import DispatchPass

  /** A tracker that lists one dispatchable item, and a startRun that accepts it. */
  ghost predicate Offers(deps: Deps, item: WorkItem) {
    && Environment(deps) && DispatchPass.SortsCandidates(deps) && Shows(deps, item)
    && deps.list.Some? && (forall n: nat :: deps.list.value(n) == Ok([item]))
    && deps.start.Some? && (forall n: nat, request :: deps.start.value(n, request).Ok?)
  }

  /** The only slot is taken by another item. */
  ghost predicate OnlySlotTaken(cfg: Config, s: State, item: WorkItem, other: string) {
    && cfg.maxConcurrent == 1 && item.id !in s.claimed && item.id !in s.running && other != item.id
    && s.running.Keys == {other} && Dispatchable(cfg, item)
  }

  /** With the slot free the item takes it. */
  lemma TakesFreeSlot(cfg: Config, deps: Deps, s: State, now: int, item: WorkItem)
    requires Offers(deps, item) && Dispatchable(cfg, item) && item.id !in s.claimed && s.running == map[]
    ensures var t := ListAndDispatch(cfg, deps, s, now);
            item.id in t.running && IsNewRun(t.running[item.id], item, 0, now, "",
                                             deps.start.value(s.calls + 3, StartRequest(item, 0, "")).value)
  {
    var tried := s.(calls := s.calls + 2);
    var called := tried.(calls := tried.calls + 1);
    var result := deps.start.value(called.calls, StartRequest(item, 0, "")).value;
    OneListed(cfg, deps, s, now, item);
    NoHostsAdmit(deps, called, "");
    assert RunningIn(cfg, tried.running, cfg.lower(Trim(item.state))) == {};
    CandidateStarts(cfg, deps, tried, now, item, item, "", result);
  }

  /** A run that this cycle's refresh shows terminal frees its slot for this cycle's candidate. */
  lemma FinishedFreesSlot(cfg: Config, deps: Deps, s: State, now: int, item: WorkItem, other: string, shown: WorkItem)
    requires Inv(cfg, s) && Offers(deps, item) && OnlySlotTaken(cfg, s, item, other) && cfg.stallTimeout <= 0
    requires shown.id == other && cfg.lower(Trim(shown.state)) in cfg.terminalStates
    requires forall n: nat :: deps.refresh.value(n, [other]) == Ok([shown])
    ensures var t := CycleState(cfg, deps, s, now); other !in t.running && item.id in t.running
  {
    var reconciled := Scheduler.ReconcileRunning(cfg, deps, s);
    SingleOrder(deps, s.calls, other);
    assert reconciled == ReconcileAnswer(cfg, deps, s, Ok([shown]));
    ReconciledAway(cfg, deps, s, item, other, shown);
    TakesFreeSlot(cfg, deps, reconciled, now, item);
    OnlyOneStarts(cfg, deps, reconciled, now, item, other);
  }

  lemma ReconciledAway(cfg: Config, deps: Deps, s: State, item: WorkItem, other: string, shown: WorkItem)
    requires Inv(cfg, s) && WellOrdered(deps) && OnlySlotTaken(cfg, s, item, other)
    requires shown.id == other && cfg.lower(Trim(shown.state)) in cfg.terminalStates
    ensures var t := ReconcileAnswer(cfg, deps, s, Ok([shown])); t.running == map[] && item.id !in t.claimed
  {
    var t := ReconcileAnswer(cfg, deps, s, Ok([shown]));
    forall id ensures id !in t.running && (id == item.id ==> id !in t.claimed) {
      ReconcileAnswerExact(cfg, deps, s, Ok([shown]), id);
      if id == other { ShownDecides(cfg, deps, s, [shown], other, 0); }
    }
  }

  /** A run that is stalled frees its slot in the same way. */
  lemma StalledFreesSlot(cfg: Config, deps: Deps, s: State, now: int, item: WorkItem, other: string)
    requires Offers(deps, item) && OnlySlotTaken(cfg, s, item, other) && cfg.stallTimeout > 0
    requires s.running[other].lastEventAt.None? && now - s.running[other].startedAt > cfg.stallTimeout
    ensures var t := CycleState(cfg, deps, s, now); other !in t.running && item.id in t.running
  {
    OnlyRunStalled(cfg, deps, s, now, other);
    var reconciled := Reconcile(cfg, deps, s, now);
    TakesFreeSlot(cfg, deps, reconciled, now, item);
    OnlyOneStarts(cfg, deps, reconciled, now, item, other);
  }

  lemma OnlyOneStarts(cfg: Config, deps: Deps, s: State, now: int, item: WorkItem, other: string)
    requires Offers(deps, item) && s.running == map[] && other != item.id
    ensures other !in ListAndDispatch(cfg, deps, s, now).running
  {
    OneListed(cfg, deps, s, now, item);
    var tried := s.(calls := s.calls + 2);
    RevalidateEchoes(cfg, deps, tried, item.id);
  }
}
