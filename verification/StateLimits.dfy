/**
 The per-state limit. It is no invariant: the candidate path checks the state an item was listed in, and
 reconciliation rewrites the states of running items. For both, and for whole runs, the exact condition.
 */
module StateLimits {
  import opened Domain
  import opened Scheduler
  import opened Safety
  import opened Service
  import opened ServiceSafety
  import opened Runs
  import opened Trails
  import opened Rounds
  import opened Reconciliation
  import DispatchPass
  import Hosts
  import HostCapacity

  ghost predicate StateLimitsHold(cfg: Config, running: map<string, Run>) {
    forall state :: WithinStateLimit(cfg, running, state)
  }

  predicate WithinStateLimit(cfg: Config, running: map<string, Run>, state: string) {
    cfg.StateLimit(state) > 0 ==> |InState(cfg, running, state)| <= cfg.StateLimit(state)
  }

  lemma OneMoreInState(cfg: Config, running: map<string, Run>, id: string, run: Run, state: string)
    requires id !in running
    ensures |InState(cfg, running[id := run], state)|
            == |InState(cfg, running, state)| + (if cfg.Norm(run.item.state) == cfg.Norm(state) then 1 else 0)
  {
    var added: set<string> := if cfg.Norm(run.item.state) == cfg.Norm(state) then {id} else {};
    assert InState(cfg, running[id := run], state) == InState(cfg, running, state) + added;
    assert id !in InState(cfg, running, state);
  }

  /** A started run keeps every per-state limit exactly when the state it is started in had room. */
  lemma StartKeepsStateLimitsExactly(
    cfg: Config, s: State, now: int, item: WorkItem, attempt: int, host: string, result: StartResult)
    requires StateLimitsHold(cfg, s.running) && item.id !in s.running
    ensures StateLimitsHold(cfg, BeginRun(s, now, item, attempt, host, result).running)
            <==> !AtStateLimit(cfg, s, item.state)
  {
    var after := BeginRun(s, now, item, attempt, host, result).running;
    forall state
      ensures WithinStateLimit(cfg, after, state)
              <==> (cfg.Norm(state) == cfg.Norm(item.state) ==> !AtStateLimit(cfg, s, item.state))
    {
      assert WithinStateLimit(cfg, s.running, state);
      OneMoreInState(cfg, s.running, item.id, after[item.id], state);
    }
    assert cfg.Norm(item.state) == cfg.Norm(item.state);
  }

  /** The item gets a host, and startRun accepts it. */
  predicate StartAccepted(deps: Deps, s: State, item: WorkItem, attempt: int, preferred: string) {
    var (admitted, host) := AdmitHost(deps, s, preferred);
    host.Some? && CallStart(deps, admitted, StartRequest(item, attempt, host.value)).1.Ok?
  }

  lemma StartOnExactly(cfg: Config, deps: Deps, s: State, now: int, item: WorkItem, attempt: int, host: string)
    requires StateLimitsHold(cfg, s.running) && item.id !in s.running
    ensures StateLimitsHold(cfg, StartOn(cfg, deps, s, now, item, attempt, host).0.running)
            <==> !AtStateLimit(cfg, s, item.state)
                 || CallStart(deps, s, StartRequest(item, attempt, host)).1.Err?
  {
    var (called, answer) := CallStart(deps, s, StartRequest(item, attempt, host));
    if answer.Ok? {
      StartKeepsStateLimitsExactly(cfg, called, now, item, attempt, host, answer.value);
    }
  }

  /** A dispatch keeps the limits exactly when the state it starts the item in had room, or no start is accepted. */
  lemma DispatchKeepsStateLimitsExactly(
    cfg: Config, deps: Deps, s: State, now: int, item: WorkItem, attempt: int, preferred: string)
    requires StateLimitsHold(cfg, s.running) && item.id !in s.running
    ensures StateLimitsHold(cfg, DispatchItem(cfg, deps, s, now, item, attempt, preferred).0.running)
            <==> !AtStateLimit(cfg, s, item.state) || !StartAccepted(deps, s, item, attempt, preferred)
  {
    var (admitted, host) := AdmitHost(deps, s, preferred);
    if host.Some? {
      StartOnExactly(cfg, deps, admitted, now, item, attempt, host.value);
    }
  }

  /** The retry path checks the state it has just refreshed, and so keeps the limits. */
  lemma RedispatchKeepsStateLimits(
    cfg: Config, deps: Deps, s: State, now: int, id: string, entry: Retry, item: WorkItem)
    requires StateLimitsHold(cfg, s.running) && item.id !in s.running
    ensures StateLimitsHold(cfg, Redispatch(cfg, deps, s, now, id, entry, item).running)
  {
    if !AtStateLimit(cfg, s, item.state) {
      DispatchKeepsStateLimitsExactly(cfg, deps, s, now, item, entry.attempt, entry.workerHost);
      var (dispatched, ok) := DispatchItem(cfg, deps, s, now, item, entry.attempt, entry.workerHost);
      assert Redispatch(cfg, deps, s, now, id, entry, item).running == dispatched.running || AtGlobalLimit(cfg, s);
    }
  }

  /**
   The candidate path checks the listed state: it keeps the limits exactly when the refreshed one has room or
   no start is accepted.
   */
  lemma CandidateKeepsStateLimitsExactly(cfg: Config, deps: Deps, s: State, now: int, item: WorkItem)
    requires Inv(cfg, s) && EchoesId(deps) && ShouldDispatch(cfg, s, item) && StateLimitsHold(cfg, s.running)
    ensures var (called, refreshed) := RevalidateCandidate(cfg, deps, s, item.id);
            StateLimitsHold(cfg, TryCandidate(cfg, deps, s, now, item).running)
            <==> refreshed.None? || !AtStateLimit(cfg, s, refreshed.value.state)
                 || !StartAccepted(deps, called, refreshed.value, 0, "")
  {
    RevalidateEchoes(cfg, deps, s, item.id);
    var (called, refreshed) := RevalidateCandidate(cfg, deps, s, item.id);
    if refreshed.Some? {
      DispatchKeepsStateLimitsExactly(cfg, deps, called, now, refreshed.value, 0, "");
    }
  }

  // ----- operations that only remove runs, or leave their items alone -----

  ghost predicate SameItems(before: map<string, Run>, after: map<string, Run>) {
    forall id :: id in after ==> id in before && after[id].item == before[id].item
  }

  lemma SameItemsKeep(cfg: Config, before: map<string, Run>, after: map<string, Run>)
    requires StateLimitsHold(cfg, before) && SameItems(before, after)
    ensures StateLimitsHold(cfg, after)
  {
    forall state ensures WithinStateLimit(cfg, after, state) {
      assert WithinStateLimit(cfg, before, state);
      HostCapacity.SubsetSmaller(InState(cfg, after, state), InState(cfg, before, state));
    }
  }

  lemma StallsKeepStateLimits(cfg: Config, deps: Deps, s: State, now: int)
    requires WellOrdered(deps) && StateLimitsHold(cfg, s.running)
    ensures StateLimitsHold(cfg, Scheduler.ReconcileStalled(cfg, deps, s, now).running)
  {
    if cfg.stallTimeout > 0 {
      var t := Scheduler.ReconcileStalled(cfg, deps, s, now);
      forall id | id in t.running ensures id in s.running && t.running[id].item == s.running[id].item {
        ReconcileStalledExact(cfg, deps, s, now, id);
      }
      SameItemsKeep(cfg, s.running, t.running);
    }
  }

  lemma EventKeepsStateLimits(cfg: Config, s: State, now: int, event: RunEvent)
    requires StateLimitsHold(cfg, s.running)
    ensures StateLimitsHold(cfg, ApplyRunEvent(cfg, s, now, event).running)
  {
    HostCapacity.EventOnRunning(cfg, s, now, event);
    SameItemsKeep(cfg, s.running, ApplyRunEvent(cfg, s, now, event).running);
  }

  lemma SettleKeepsStateLimits(
    cfg: Config, deps: Deps, s: State, now: int, id: string, entry: Retry, status: RetryStatus)
    requires StateLimitsHold(cfg, s.running) && id !in s.running && (status.Ready? ==> status.item.id == id)
    ensures StateLimitsHold(cfg, Settle(cfg, deps, s, now, id, entry, status).running)
  {
    if status.Ready? {
      RedispatchKeepsStateLimits(cfg, deps, s, now, id, entry, status.item);
    }
  }

  lemma RetryKeepsStateLimits(cfg: Config, deps: Deps, s: State, now: int, id: string, nonce: nat)
    requires Inv(cfg, s) && EchoesId(deps) && StateLimitsHold(cfg, s.running)
    ensures StateLimitsHold(cfg, HandleDueRetry(cfg, deps, s, now, id, nonce).running)
  {
    assert Sound(s, id);
    if id in s.retrying && s.retrying[id].nonce == nonce {
      var (due, status) := RefreshRetryItem(cfg, deps, Consume(s, id, nonce), id);
      SettleKeepsStateLimits(cfg, deps, due, now, id, s.retrying[id], status);
    }
  }

  // ----- reconciliation -----

  /** The running items a refresh keeps and moves to a state. */
  function KeptIn(cfg: Config, visible: map<string, WorkItem>, running: map<string, Run>, state: string): set<string> {
    set id | id in running && Keeps(cfg, visible, id) && cfg.Norm(visible[id].state) == cfg.Norm(state)
  }

  predicate KeptWithin(cfg: Config, visible: map<string, WorkItem>, running: map<string, Run>, state: string) {
    cfg.StateLimit(state) > 0 ==> |KeptIn(cfg, visible, running, state)| <= cfg.StateLimit(state)
  }

  /** Of every limited state, the kept items whose refreshed state it is are within its limit. */
  ghost predicate AnswerFits(cfg: Config, s: State, answer: Answer<seq<WorkItem>>) {
    answer.Ok? ==> forall state :: KeptWithin(cfg, ById(answer.value), s.running, state)
  }

  ghost predicate RefreshFits(cfg: Config, deps: Deps, s: State) {
    s.running != map[] && deps.refresh.Some? ==>
      AnswerFits(cfg, s, deps.refresh.value(s.calls + 1, deps.order(s.calls, s.running.Keys)))
  }

  lemma KeptAreRunning(cfg: Config, deps: Deps, s: State, answer: Answer<seq<WorkItem>>, state: string)
    requires Inv(cfg, s) && WellOrdered(deps) && answer.Ok?
    ensures InState(cfg, ReconcileAnswer(cfg, deps, s, answer).running, state)
            == KeptIn(cfg, ById(answer.value), s.running, state)
  {
    var t := ReconcileAnswer(cfg, deps, s, answer);
    forall id ensures id in InState(cfg, t.running, state) <==> id in KeptIn(cfg, ById(answer.value), s.running, state) {
      ReconcileAnswerExact(cfg, deps, s, answer, id);
    }
  }

  lemma AnswerKeepsStateLimitsExactly(cfg: Config, deps: Deps, s: State, answer: Answer<seq<WorkItem>>)
    requires Inv(cfg, s) && WellOrdered(deps) && StateLimitsHold(cfg, s.running)
    ensures StateLimitsHold(cfg, ReconcileAnswer(cfg, deps, s, answer).running) <==> AnswerFits(cfg, s, answer)
  {
    if answer.Ok? {
      var t, visible := ReconcileAnswer(cfg, deps, s, answer), ById(answer.value);
      forall state ensures WithinStateLimit(cfg, t.running, state) <==> KeptWithin(cfg, visible, s.running, state) {
        KeptAreRunning(cfg, deps, s, answer, state);
      }
    }
  }

  /**
   Reconciliation keeps the limits exactly when the tracker's answer, if there is one, leaves every limited
   state within its limit, counting the kept items by their refreshed states.
   */
  lemma RefreshKeepsStateLimitsExactly(cfg: Config, deps: Deps, s: State)
    requires Inv(cfg, s) && WellOrdered(deps) && StateLimitsHold(cfg, s.running)
    ensures StateLimitsHold(cfg, Scheduler.ReconcileRunning(cfg, deps, s).running) <==> RefreshFits(cfg, deps, s)
  {
    if s.running != map[] && deps.refresh.Some? {
      AnswerKeepsStateLimitsExactly(cfg, deps, s, deps.refresh.value(s.calls + 1, deps.order(s.calls, s.running.Keys)));
    }
  }

  // ----- every run -----

  /** The state the candidate was refreshed in has room, or the candidate gets no host or is refused by startRun. */
  predicate CandidateFits(cfg: Config, deps: Deps, s: State, item: WorkItem) {
    ShouldDispatch(cfg, s, item) ==>
      var (called, refreshed) := RevalidateCandidate(cfg, deps, s, item.id);
      refreshed.None? || !AtStateLimit(cfg, s, refreshed.value.state)
      || !StartAccepted(deps, called, refreshed.value, 0, "")
  }

  ghost predicate Fits(cfg: Config, deps: Deps, s: State, op: Operation) {
    && (op.Candidate? ==> CandidateFits(cfg, deps, s, op.item))
    && (op.Refreshes? ==> RefreshFits(cfg, deps, s))
  }

  lemma OperationKeepsStateLimitsExactly(cfg: Config, deps: Deps, s: State, op: Operation)
    requires Inv(cfg, s) && Environment(deps) && StateLimitsHold(cfg, s.running)
    ensures StateLimitsHold(cfg, Apply(cfg, deps, s, op).running) <==> Fits(cfg, deps, s, op)
  {
    match op
    case Quiet(_) =>
    case Stalls(now) => StallsKeepStateLimits(cfg, deps, s, now);
    case Refreshes => RefreshKeepsStateLimitsExactly(cfg, deps, s);
    case Candidate(now, item) =>
      if ShouldDispatch(cfg, s, item) { CandidateKeepsStateLimitsExactly(cfg, deps, s, now, item); }
    case TakeRetry(now, id, nonce) => RetryKeepsStateLimits(cfg, deps, s, now, id, nonce);
    case Arrives(now, event) => EventKeepsStateLimits(cfg, s, now, event);
  }

  ghost predicate LimitsThroughout(cfg: Config, deps: Deps, s: State, ops: seq<Operation>)
    requires WellOrdered(deps)
    decreases |ops|
  {
    StateLimitsHold(cfg, s.running) && (ops != [] ==> LimitsThroughout(cfg, deps, Apply(cfg, deps, s, ops[0]), ops[1..]))
  }

  ghost predicate AllFit(cfg: Config, deps: Deps, s: State, ops: seq<Operation>)
    requires WellOrdered(deps)
    decreases |ops|
  {
    ops != [] ==> Fits(cfg, deps, s, ops[0]) && AllFit(cfg, deps, Apply(cfg, deps, s, ops[0]), ops[1..])
  }

  lemma {:induction false} LimitsAlong(cfg: Config, deps: Deps, s: State, ops: seq<Operation>)
    requires Inv(cfg, s) && Environment(deps) && StateLimitsHold(cfg, s.running)
    ensures LimitsThroughout(cfg, deps, s, ops) <==> AllFit(cfg, deps, s, ops)
    ensures AllFit(cfg, deps, s, ops) ==> StateLimitsHold(cfg, Along(cfg, deps, s, ops).running)
    decreases |ops|
  {
    if ops != [] {
      var next := Apply(cfg, deps, s, ops[0]);
      OperationKeepsStateLimitsExactly(cfg, deps, s, ops[0]);
      ApplySound(cfg, deps, s, ops[0]);
      if StateLimitsHold(cfg, next.running) {
        LimitsAlong(cfg, deps, next, ops[1..]);
      }
    }
  }

  lemma NothingRunning(cfg: Config)
    ensures StateLimitsHold(cfg, map[])
  {
    forall state ensures WithinStateLimit(cfg, map[], state) {
      assert InState(cfg, map[], state) == {};
    }
  }

  /**
   In every run the per-state limits hold throughout exactly when every candidate started had room in its
   refreshed state and every answer of the tracker left the limited states within their limits.
   */
  lemma StateLimitsHoldExactly(cfg: Config, deps: Deps, start: int, inputs: seq<Input>)
    requires Environment(deps)
    ensures var sv := NewService(start); var ops := RunTrail(cfg, deps, sv, inputs);
            && (LimitsThroughout(cfg, deps, sv.state, ops) <==> AllFit(cfg, deps, sv.state, ops))
            && (AllFit(cfg, deps, sv.state, ops) ==> StateLimitsHold(cfg, After(cfg, deps, start, inputs).state.running))
  {
    NewServiceSound(cfg, start);
    NothingRunning(cfg);
    LimitsAlong(cfg, deps, NewService(start).state, RunTrail(cfg, deps, NewService(start), inputs));
    RunIsTrail(cfg, deps, NewService(start), inputs);
  }

  // ----- it happens -----

  /** A candidate listed in a state with room and refreshed in a full one overruns the limit when it starts. */
  lemma CandidateOverrun(cfg: Config, deps: Deps, s: State, now: int, listed: WorkItem, refreshed: WorkItem)
    requires Inv(cfg, s) && EchoesId(deps) && StateLimitsHold(cfg, s.running) && ShouldDispatch(cfg, s, listed)
    requires refreshed.id == listed.id && RetryCandidate(cfg, refreshed) && AtStateLimit(cfg, s, refreshed.state)
    requires Shows(deps, refreshed) && deps.start.Some?
    requires deps.start.value(s.calls + 1, StartRequest(refreshed, 0, "")).Ok?
    ensures !StateLimitsHold(cfg, TryCandidate(cfg, deps, s, now, listed).running)
  {
    var called := s.(calls := s.calls + 1);
    assert RevalidateCandidate(cfg, deps, s, listed.id) == (called, Some(refreshed));
    NoHostsAdmit(deps, called, "");
    CandidateKeepsStateLimitsExactly(cfg, deps, s, now, listed);
  }
}
