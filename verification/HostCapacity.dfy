/**
 No host carries more runs than MaxPerHost, as far as the scheduler decides: dispatch never overruns a host,
 and a worker event does exactly when it moves the entry it meets to another host that is full. Events are
 matched by item, so that a worker reports its own host is not enough; `JointHosts` says what is.
 */
module HostCapacity {
  import opened Text
  import opened Domain
  import opened Scheduler
  import opened Safety
  import opened Service
  import opened ServiceSafety
  import opened Runs
  import Hosts

  /** Hosts are configured with a limit that is not negative, as validateSettings requires. */
  predicate Limited(deps: Deps) {
    deps.hosts.Some? && Hosts.Configured(deps.hosts.value.hosts) != []
    && deps.hosts.value.maxPerHost.Some? && deps.hosts.value.maxPerHost.value >= 0
  }

  ghost predicate HostsWithin(deps: Deps, running: map<string, Run>) {
    Limited(deps) ==>
      forall host :: host != "" ==> |OnHost(running, host)| <= deps.hosts.value.maxPerHost.value
  }

  /** startRun answers with no host or with the one it was asked to use, as workerManager.StartRun does. */
  ghost predicate EchoesHost(deps: Deps) {
    deps.start.Some? ==>
      forall n, request :: var answer := deps.start.value(n, request);
                           answer.Ok? ==> IsBlank(answer.value.workerHost)
                                          || Trim(answer.value.workerHost) == Trim(request.host)
  }

  // ----- operations that only remove runs, or keep them where they are -----

  /** Every remaining run has the host and the handle it had. */
  predicate StaysPut(before: map<string, Run>, after: map<string, Run>) {
    forall id :: id in after ==>
      id in before && Trim(after[id].workerHost) == Trim(before[id].workerHost) && after[id].handle == before[id].handle
  }

  lemma StaysPutWithin(deps: Deps, before: map<string, Run>, after: map<string, Run>)
    requires HostsWithin(deps, before) && StaysPut(before, after)
    ensures HostsWithin(deps, after)
  {
    if Limited(deps) {
      forall host | host != "" ensures |OnHost(after, host)| <= deps.hosts.value.maxPerHost.value {
        SubsetSmaller(OnHost(after, host), OnHost(before, host));
      }
    }
  }

  lemma SubsetSmaller<T>(a: set<T>, b: set<T>)
    requires a <= b
    ensures |a| <= |b|
  {
    assert b == a + (b - a);
  }

  // ----- dispatch -----

  /** The map the scheduler counts hosts in gives the true number of runs on each. */
  lemma HostCountIsTrue(running: map<string, Run>, host: string)
    requires host != ""
    ensures Hosts.CountFor(HostCount(running), host) == |OnHost(running, host)|
  {
    forall id | id in OnHost(running, host) ensures host in HostsInUse(running) {
      assert Trim(running[id].workerHost) == host && !IsBlank(running[id].workerHost);
    }
    if host !in HostsInUse(running) {
      assert OnHost(running, host) == {};
    }
  }

  lemma BeginRunWithin(
    deps: Deps, s: State, now: int, item: WorkItem, attempt: int, preferred: string, result: StartResult)
    requires HostsWithin(deps, s.running) && item.id !in s.running
    requires deps.hosts.Some?
    requires AdmitHost(deps, s, preferred).1.Some?
    requires var host := AdmitHost(deps, s, preferred).1.value;
             IsBlank(result.workerHost) || Trim(result.workerHost) == Trim(host)
    ensures HostsWithin(deps, BeginRun(s, now, item, attempt, AdmitHost(deps, s, preferred).1.value, result).running)
  {
    var chosen := AdmitHost(deps, s, preferred).1.value;
    var after := BeginRun(s, now, item, attempt, chosen, result).running;
    if Limited(deps) {
      Hosts.AdmittedHasRoom(deps.hosts.value, preferred, HostCount(s.running));
      Hosts.ConfiguredClean(deps.hosts.value.hosts);
      assert Trim(after[item.id].workerHost) == chosen;
      forall host | host != "" ensures |OnHost(after, host)| <= deps.hosts.value.maxPerHost.value {
        if host == chosen {
          HostCountIsTrue(s.running, host);
          assert OnHost(after, host) == OnHost(s.running, host) + {item.id};
        } else {
          assert OnHost(after, host) == OnHost(s.running, host);
        }
      }
    }
  }

  lemma DispatchWithin(
    cfg: Config, deps: Deps, s: State, now: int, item: WorkItem, attempt: int, preferred: string)
    requires HostsWithin(deps, s.running) && EchoesHost(deps) && item.id !in s.running
    ensures HostsWithin(deps, DispatchItem(cfg, deps, s, now, item, attempt, preferred).0.running)
  {
    var (admitted, host) := AdmitHost(deps, s, preferred);
    if deps.hosts.Some? && host.Some? {
      var (called, answer) := CallStart(deps, admitted, StartRequest(item, attempt, host.value));
      if answer.Ok? {
        BeginRunWithin(deps, s, now, item, attempt, preferred, answer.value);
        assert BeginRun(called, now, item, attempt, host.value, answer.value).running
               == BeginRun(s, now, item, attempt, host.value, answer.value).running;
      }
    }
  }

  lemma TryCandidateWithin(cfg: Config, deps: Deps, s: State, now: int, item: WorkItem)
    requires HostsWithin(deps, s.running) && EchoesHost(deps) && EchoesId(deps)
    ensures HostsWithin(deps, TryCandidate(cfg, deps, s, now, item).running)
  {
    if ShouldDispatch(cfg, s, item) {
      RevalidateEchoes(cfg, deps, s, item.id);
      var (called, refreshed) := RevalidateCandidate(cfg, deps, s, item.id);
      if refreshed.Some? {
        DispatchWithin(cfg, deps, called, now, refreshed.value, 0, "");
      }
    }
  }

  lemma {:induction false} TryCandidatesWithin(cfg: Config, deps: Deps, s: State, now: int, items: seq<WorkItem>)
    requires HostsWithin(deps, s.running) && EchoesHost(deps) && EchoesId(deps)
    ensures HostsWithin(deps, TryCandidates(cfg, deps, s, now, items).running)
    decreases |items|
  {
    if items != [] {
      TryCandidateWithin(cfg, deps, s, now, items[0]);
      TryCandidatesWithin(cfg, deps, TryCandidate(cfg, deps, s, now, items[0]), now, items[1..]);
    }
  }

  // ----- due retries, stalls, reconciliation -----

  lemma SettleWithin(
    cfg: Config, deps: Deps, s: State, now: int, id: string, entry: Retry, status: RetryStatus)
    requires HostsWithin(deps, s.running) && EchoesHost(deps) && id !in s.running
    requires status.Ready? ==> status.item.id == id
    ensures HostsWithin(deps, Settle(cfg, deps, s, now, id, entry, status).running)
  {
    if status.Ready? {
      DispatchWithin(cfg, deps, s, now, status.item, entry.attempt, entry.workerHost);
    }
  }

  lemma HandleDueRetryWithin(cfg: Config, deps: Deps, s: State, now: int, id: string, nonce: nat)
    requires Inv(cfg, s) && HostsWithin(deps, s.running) && EchoesHost(deps) && EchoesId(deps)
    ensures HostsWithin(deps, HandleDueRetry(cfg, deps, s, now, id, nonce).running)
  {
    assert Sound(s, id);
    if id in s.retrying && s.retrying[id].nonce == nonce {
      var (due, status) := RefreshRetryItem(cfg, deps, Consume(s, id, nonce), id);
      SettleWithin(cfg, deps, due, now, id, s.retrying[id], status);
    }
  }

  lemma {:induction false} StallEachStays(
    cfg: Config, s: State, now: int, runs: map<string, Run>, ids: seq<string>)
    requires forall id :: id in ids ==> id in runs
    ensures StaysPut(s.running, StallEach(cfg, s, now, runs, ids).running)
    decreases |ids|
  {
    if ids != [] {
      var run := runs[ids[0]];
      var t := if IsStalled(cfg, run, now) then StallRun(cfg, s, now, ids[0], run) else s;
      StallEachStays(cfg, t, now, runs, ids[1..]);
    }
  }

  lemma {:induction false} ReconcileEachStays(
    cfg: Config, s: State, visible: map<string, WorkItem>, runs: map<string, Run>, ids: seq<string>)
    requires forall id :: id in ids ==> id in runs && id in s.running && s.running[id] == runs[id]
    requires forall id :: id in ids ==> runs[id].item.id == id
    requires forall i, j :: 0 <= i < j < |ids| ==> ids[i] != ids[j]
    ensures StaysPut(s.running, ReconcileEach(cfg, s, visible, runs, ids).running)
    decreases |ids|
  {
    if ids != [] {
      assert ids[0] in ids;
      forall id | id in ids[1..] ensures id != ids[0] {}
      var t := ReconcileOne(cfg, s, visible, ids[0], runs[ids[0]]);
      ReconcileEachStays(cfg, t, visible, runs, ids[1..]);
    }
  }

  lemma ReconcileWithin(cfg: Config, deps: Deps, s: State, now: int)
    requires Inv(cfg, s) && HostsWithin(deps, s.running) && WellOrdered(deps)
    ensures HostsWithin(deps, Reconcile(cfg, deps, s, now).running)
  {
    var order := deps.order(s.calls, s.running.Keys);
    assert Lists(order, s.running.Keys);
    StallEachStays(cfg, s.(calls := s.calls + 1), now, s.running, order);
    var stalled := ReconcileStalled(cfg, deps, s, now);
    StaysPutWithin(deps, s.running, stalled.running);
    ReconcileStalledSound(cfg, deps, s, now);
    ReconcileRunningStays(cfg, deps, stalled);
    StaysPutWithin(deps, stalled.running, ReconcileRunning(cfg, deps, stalled).running);
  }

  lemma KeysAreIds(cfg: Config, s: State)
    requires Inv(cfg, s)
    ensures forall id :: id in s.running ==> s.running[id].item.id == id
  {
    forall id | id in s.running ensures s.running[id].item.id == id { assert Sound(s, id); }
  }

  lemma ReconcileAnswerStays(cfg: Config, deps: Deps, s: State, answer: Answer<seq<WorkItem>>)
    requires Inv(cfg, s) && WellOrdered(deps)
    ensures StaysPut(s.running, ReconcileAnswer(cfg, deps, s, answer).running)
  {
    if answer.Ok? {
      var ids := deps.order(s.calls + 2, s.running.Keys);
      assert Lists(ids, s.running.Keys);
      KeysAreIds(cfg, s);
      ReconcileEachStays(cfg, s.(calls := s.calls + 3), ById(answer.value), s.running, ids);
    }
  }

  lemma ReconcileRunningStays(cfg: Config, deps: Deps, s: State)
    requires Inv(cfg, s) && WellOrdered(deps)
    ensures StaysPut(s.running, ReconcileRunning(cfg, deps, s).running)
  {
    if s.running != map[] && deps.refresh.Some? {
      ReconcileAnswerStays(cfg, deps, s, deps.refresh.value(s.calls + 1, deps.order(s.calls, s.running.Keys)));
    }
  }

  lemma ListAndDispatchWithin(cfg: Config, deps: Deps, s: State, now: int)
    requires HostsWithin(deps, s.running) && EchoesHost(deps) && EchoesId(deps)
    ensures HostsWithin(deps, ListAndDispatch(cfg, deps, s, now).running)
  {
    if deps.list.Some? {
      var answer := deps.list.value(s.calls);
      var listed := s.(calls := s.calls + 1);
      if answer.Ok? {
        TryCandidatesWithin(cfg, deps, listed.(calls := listed.calls + 1), now, deps.sort(listed.calls, answer.value));
      }
    }
  }

  lemma CycleWithin(cfg: Config, deps: Deps, s: State, now: int)
    requires Inv(cfg, s) && HostsWithin(deps, s.running) && EchoesHost(deps) && Environment(deps)
    ensures HostsWithin(deps, CycleState(cfg, deps, s, now).running)
  {
    ReconcileWithin(cfg, deps, s, now);
    ListAndDispatchWithin(cfg, deps, Reconcile(cfg, deps, s, now), now);
  }

  // ----- worker events -----

  /** The event names no host, the host its run is on, or ends the run. */
  predicate EchoingEvent(s: State, event: RunEvent) {
    event.itemId in s.running ==>
      event.Terminal() || event.workerHost == ""
      || Trim(event.workerHost) == Trim(s.running[event.itemId].workerHost)
  }

  lemma ConcludeOnRunning(cfg: Config, s: State, now: int, event: RunEvent, run: Run)
    ensures Conclude(cfg, s, now, event, run).running ==
              if event.Terminal() then s.running - {event.itemId} else s.running[event.itemId := run]
  {
  }

  /** What an event does to the running map. */
  lemma EventOnRunning(cfg: Config, s: State, now: int, event: RunEvent)
    ensures ApplyRunEvent(cfg, s, now, event).running ==
              if event.itemId !in s.running then s.running
              else if event.Terminal() then s.running - {event.itemId}
              else s.running[event.itemId := Stamp(s.running[event.itemId], event)]
  {
    if event.itemId in s.running {
      ConcludeOnRunning(cfg, Account(s, event), now, event, Stamp(s.running[event.itemId], event));
    }
  }

  lemma EchoingEventWithin(cfg: Config, deps: Deps, s: State, now: int, event: RunEvent)
    requires HostsWithin(deps, s.running) && EchoingEvent(s, event)
    ensures HostsWithin(deps, ApplyRunEvent(cfg, s, now, event).running)
  {
    EventOnRunning(cfg, s, now, event);
    StaysPutWithin(deps, s.running, ApplyRunEvent(cfg, s, now, event).running);
  }

  /** The event leaves its run where it is, or on a blank host, or moves it to a host that still has room. */
  predicate Fits(deps: Deps, s: State, event: RunEvent)
    requires Limited(deps)
  {
    EchoingEvent(s, event) || IsBlank(event.workerHost)
    || |OnHost(s.running, Trim(event.workerHost))| < deps.hosts.value.maxPerHost.value
  }

  /**
   Events are matched by item ID alone, so a late event of an earlier run can move the current run to
   another host. The limit survives an event exactly when the event fits.
   */
  lemma EventKeepsLimitExactly(cfg: Config, deps: Deps, s: State, now: int, event: RunEvent)
    requires Limited(deps) && HostsWithin(deps, s.running)
    ensures HostsWithin(deps, ApplyRunEvent(cfg, s, now, event).running) <==> Fits(deps, s, event)
  {
    var after := ApplyRunEvent(cfg, s, now, event).running;
    if EchoingEvent(s, event) {
      EchoingEventWithin(cfg, deps, s, now, event);
    } else {
      MovedRun(cfg, s, now, event);
      var id, host := event.itemId, Trim(event.workerHost);
      assert |OnHost(after, host)| == |OnHost(s.running, host)| + 1;
      forall other | other != "" && other != host
        ensures |OnHost(after, other)| <= deps.hosts.value.maxPerHost.value
      {
        SubsetSmaller(OnHost(after, other), OnHost(s.running, other));
      }
    }
  }

  lemma MovedRun(cfg: Config, s: State, now: int, event: RunEvent)
    requires !EchoingEvent(s, event)
    ensures var after, host := ApplyRunEvent(cfg, s, now, event).running, Trim(event.workerHost);
            && event.itemId !in OnHost(s.running, host)
            && OnHost(after, host) == OnHost(s.running, host) + {event.itemId}
            && forall other :: other != host ==> OnHost(after, other) <= OnHost(s.running, other)
  {
    var after, id := ApplyRunEvent(cfg, s, now, event).running, event.itemId;
    EventOnRunning(cfg, s, now, event);
    assert after[id].workerHost == event.workerHost;
  }

  // ----- runs -----

  ghost predicate LimitThroughout(cfg: Config, deps: Deps, sv: ServiceState, inputs: seq<Input>)
    requires WellOrdered(deps)
    decreases |inputs|
  {
    && HostsWithin(deps, sv.state.running)
    && (inputs != [] ==> LimitThroughout(cfg, deps, Step(cfg, deps, sv, inputs[0]), inputs[1..]))
  }

  /** Every event of the run fits the state it meets. */
  ghost predicate EventsFit(cfg: Config, deps: Deps, sv: ServiceState, inputs: seq<Input>)
    requires WellOrdered(deps) && Limited(deps)
    decreases |inputs|
  {
    inputs != [] ==>
      (inputs[0].Event? ==> Fits(deps, sv.state, inputs[0].event))
      && EventsFit(cfg, deps, Step(cfg, deps, sv, inputs[0]), inputs[1..])
  }

  lemma StepWithin(cfg: Config, deps: Deps, sv: ServiceState, input: Input)
    requires ServiceInv(cfg, sv) && HostsWithin(deps, sv.state.running) && EchoesHost(deps) && Environment(deps)
    requires input.Event? ==> EchoingEvent(sv.state, input.event)
    ensures HostsWithin(deps, Step(cfg, deps, sv, input).state.running)
  {
    match input
    case Deliver(t, now) =>
      if t in sv.timers && sv.timers[t].expired && !sv.closed {
        CallWithin(cfg, deps, sv.(timers := sv.timers - {t}), now, sv.timers[t].call);
      }
    case Event(event, now) =>
      EchoingEventWithin(cfg, deps, sv.state, now, event);
      SyncKeeps(deps, sv.(state := ApplyRunEvent(cfg, sv.state, now, event)), now);
    case CloseService => CloseKeeps(deps, sv);
    case _ =>
  }

  lemma CallWithin(cfg: Config, deps: Deps, sv: ServiceState, now: int, call: Callback)
    requires Inv(cfg, sv.state) && HostsWithin(deps, sv.state.running) && EchoesHost(deps) && Environment(deps)
    requires !sv.closed
    ensures HostsWithin(deps, Call(cfg, deps, sv, now, call).state.running)
  {
    match call
    case Tick(_) =>
    case Cycle(nonce) =>
      CycleWithin(cfg, deps, sv.state, now);
      SyncKeeps(deps, sv.(state := CycleState(cfg, deps, sv.state, now)), now);
    case RetryTick(id, nonce) =>
      HandleDueRetryWithin(cfg, deps, sv.state, now, id, nonce);
      var forgotten :=
        if id in sv.retryTimers && sv.retryTimers[id].nonce == nonce
        then sv.(retryTimers := sv.retryTimers - {id}) else sv;
      SyncKeeps(deps, forgotten.(state := HandleDueRetry(cfg, deps, sv.state, now, id, nonce)), now);
  }

  /** A step keeps the limit unless it delivers an event that does not fit. */
  lemma StepWithinExactly(cfg: Config, deps: Deps, sv: ServiceState, input: Input)
    requires ServiceInv(cfg, sv) && HostsWithin(deps, sv.state.running) && EchoesHost(deps) && Environment(deps)
    requires Limited(deps)
    ensures HostsWithin(deps, Step(cfg, deps, sv, input).state.running)
            <==> (input.Event? ==> Fits(deps, sv.state, input.event))
  {
    if input.Event? {
      var state := ApplyRunEvent(cfg, sv.state, input.now, input.event);
      SyncKeeps(deps, sv.(state := state), input.now);
      EventKeepsLimitExactly(cfg, deps, sv.state, input.now, input.event);
    } else {
      StepWithin(cfg, deps, sv, input);
    }
  }

  lemma {:induction false} RunWithinExactly(cfg: Config, deps: Deps, sv: ServiceState, inputs: seq<Input>)
    requires ServiceInv(cfg, sv) && HostsWithin(deps, sv.state.running) && EchoesHost(deps) && Environment(deps)
    requires Limited(deps)
    ensures LimitThroughout(cfg, deps, sv, inputs) <==> EventsFit(cfg, deps, sv, inputs)
    decreases |inputs|
  {
    if inputs != [] {
      var next := Step(cfg, deps, sv, inputs[0]);
      StepWithinExactly(cfg, deps, sv, inputs[0]);
      StepSound(cfg, deps, sv, inputs[0]);
      if HostsWithin(deps, next.state.running) {
        RunWithinExactly(cfg, deps, next, inputs[1..]);
      }
    }
  }

  lemma NoneWithin(deps: Deps)
    ensures HostsWithin(deps, map[])
  {
    forall host: string | host != "" ensures |OnHost(map[], host)| == 0 { assert OnHost(map[], host) == {}; }
  }

  /** In every run with configured hosts, no host ever exceeds its limit exactly when every event fits. */
  lemma HostLimitHoldsExactly(cfg: Config, deps: Deps, start: int, inputs: seq<Input>)
    requires Environment(deps) && EchoesHost(deps) && Limited(deps)
    ensures LimitThroughout(cfg, deps, NewService(start), inputs) <==> EventsFit(cfg, deps, NewService(start), inputs)
  {
    NewServiceSound(cfg, start);
    NoneWithin(deps);
    RunWithinExactly(cfg, deps, NewService(start), inputs);
  }
}
