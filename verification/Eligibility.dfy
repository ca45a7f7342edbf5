/**
 What may start, said of the items' own fields, and what a start leaves: every item any run starts was shown
 by the tracker as dispatchable, with room for it, and what is dispatchable and accepted does start.
 */
module Eligibility {
  import opened Text
  import opened Domain
  import opened Scheduler
  import opened Safety
  import opened Service
  import opened ServiceSafety
  import opened Runs
  import opened Trails
  import HostCapacity
  import Reconciliation

  /** Complete, in an active state that is not terminal, not marked unroutable, and no todo with an open blocker. */
  predicate Dispatchable(cfg: Config, item: WorkItem) {
    && Trim(item.id) != "" && Trim(item.identifier) != "" && Trim(item.title) != "" && Trim(item.state) != ""
    && cfg.lower(Trim(item.state)) in cfg.activeStates && cfg.lower(Trim(item.state)) !in cfg.terminalStates
    && item.routable != Some(false)
    && (cfg.lower(Trim(item.state)) == "todo" ==>
          forall k :: 0 <= k < |item.blockedBy| ==> cfg.lower(Trim(item.blockedBy[k].state)) in cfg.terminalStates)
  }

  lemma CandidateIsDispatchable(cfg: Config, item: WorkItem)
    ensures RetryCandidate(cfg, item) <==> Dispatchable(cfg, item)
  {
  }

  /** A todo with a blocker that is not terminal is not dispatchable. */
  lemma OpenBlockerBlocks(cfg: Config, item: WorkItem, k: nat)
    requires cfg.lower(Trim(item.state)) == "todo" && k < |item.blockedBy|
    requires cfg.lower(Trim(item.blockedBy[k].state)) !in cfg.terminalStates
    ensures !RetryCandidate(cfg, item)
  {
    CandidateIsDispatchable(cfg, item);
  }

  function RunningIn(cfg: Config, running: map<string, Run>, state: string): set<string> {
    set id | id in running && cfg.lower(Trim(running[id].item.state)) == state
  }

  /** Fewer run than may, in all and in the state, where a limit is set. */
  predicate HasRoom(cfg: Config, s: State, item: WorkItem) {
    var state := cfg.lower(Trim(item.state));
    && (cfg.maxConcurrent > 0 ==> |s.running| < cfg.maxConcurrent)
    && (state in cfg.stateLimits && cfg.stateLimits[state] > 0 ==>
          |RunningIn(cfg, s.running, state)| < cfg.stateLimits[state])
  }

  lemma RoomExactly(cfg: Config, s: State, item: WorkItem)
    ensures HasRoom(cfg, s, item) <==> !AtGlobalLimit(cfg, s) && !AtStateLimit(cfg, s, item.state)
  {
    assert RunningIn(cfg, s.running, cfg.lower(Trim(item.state))) == InState(cfg, s.running, item.state);
  }

  /** A candidate is taken up exactly when it is dispatchable, neither claimed nor running, and there is room. */
  lemma DispatchedExactly(cfg: Config, s: State, item: WorkItem)
    ensures ShouldDispatch(cfg, s, item)
            <==> Dispatchable(cfg, item) && item.id !in s.claimed && item.id !in s.running && HasRoom(cfg, s, item)
  {
    CandidateIsDispatchable(cfg, item);
    RoomExactly(cfg, s, item);
  }

  // ----- only what is dispatchable starts -----

  /** What runs in `t` and did not in `s` is dispatchable, under its own ID, and `s` was below the global limit. */
  ghost predicate StartsFit(cfg: Config, s: State, t: State) {
    forall id :: id in t.running && id !in s.running ==> StartFits(cfg, s, t.running[id], id)
  }

  predicate StartFits(cfg: Config, s: State, run: Run, id: string) {
    Dispatchable(cfg, run.item) && run.item.id == id && (cfg.maxConcurrent > 0 ==> |s.running| < cfg.maxConcurrent)
  }

  lemma NothingStarts(cfg: Config, s: State, t: State)
    requires t.running.Keys <= s.running.Keys
    ensures StartsFit(cfg, s, t)
  {
  }

  lemma DispatchFits(cfg: Config, deps: Deps, s: State, now: int, item: WorkItem, attempt: int, preferred: string)
    requires RetryCandidate(cfg, item) && !AtGlobalLimit(cfg, s)
    ensures StartsFit(cfg, s, DispatchItem(cfg, deps, s, now, item, attempt, preferred).0)
  {
    CandidateIsDispatchable(cfg, item);
  }

  lemma CandidateFits(cfg: Config, deps: Deps, s: State, now: int, item: WorkItem)
    ensures StartsFit(cfg, s, TryCandidate(cfg, deps, s, now, item))
  {
    if ShouldDispatch(cfg, s, item) && deps.refresh.Some? {
      var (called, refreshed) := RevalidateCandidate(cfg, deps, s, item.id);
      if refreshed.Some? { DispatchFits(cfg, deps, called, now, refreshed.value, 0, ""); }
    }
  }

  lemma RedispatchFits(cfg: Config, deps: Deps, s: State, now: int, id: string, entry: Retry, item: WorkItem)
    requires RetryCandidate(cfg, item)
    ensures StartsFit(cfg, s, Redispatch(cfg, deps, s, now, id, entry, item))
  {
    if !AtGlobalLimit(cfg, s) {
      DispatchFits(cfg, deps, s, now, item, entry.attempt, entry.workerHost);
      var dispatched := DispatchItem(cfg, deps, s, now, item, entry.attempt, entry.workerHost).0;
      assert Requeue(cfg, dispatched, now, id, entry, item.identifier, NoSlots).running == dispatched.running;
    }
  }

  lemma RetryFits(cfg: Config, deps: Deps, s: State, now: int, id: string, nonce: nat)
    ensures StartsFit(cfg, s, HandleDueRetry(cfg, deps, s, now, id, nonce))
  {
    if id in s.retrying && s.retrying[id].nonce == nonce {
      var (due, status) := RefreshRetryItem(cfg, deps, Consume(s, id, nonce), id);
      if status.Ready? {
        RedispatchFits(cfg, deps, due, now, id, s.retrying[id], status.item);
      } else {
        NothingStarts(cfg, s, Settle(cfg, deps, due, now, id, s.retrying[id], status));
      }
    }
  }

  lemma StallsStartNothing(cfg: Config, deps: Deps, s: State, now: int)
    requires WellOrdered(deps)
    ensures StartsFit(cfg, s, Scheduler.ReconcileStalled(cfg, deps, s, now))
  {
    var ids := deps.order(s.calls, s.running.Keys);
    assert Lists(ids, s.running.Keys);
    HostCapacity.StallEachStays(cfg, s.(calls := s.calls + 1), now, s.running, ids);
  }

  lemma OperationFits(cfg: Config, deps: Deps, s: State, op: Operation)
    requires Inv(cfg, s) && Environment(deps)
    ensures StartsFit(cfg, s, Apply(cfg, deps, s, op))
  {
    match op
    case Quiet(_) =>
    case Stalls(now) => StallsStartNothing(cfg, deps, s, now);
    case Refreshes => HostCapacity.ReconcileRunningStays(cfg, deps, s);
    case Candidate(now, item) => CandidateFits(cfg, deps, s, now, item);
    case TakeRetry(now, id, nonce) => RetryFits(cfg, deps, s, now, id, nonce);
    case Arrives(now, event) => HostCapacity.EventOnRunning(cfg, s, now, event);
  }

  ghost predicate StartsFitThroughout(cfg: Config, deps: Deps, s: State, ops: seq<Operation>)
    requires WellOrdered(deps)
    decreases |ops|
  {
    ops != [] ==>
      StartsFit(cfg, s, Apply(cfg, deps, s, ops[0]))
      && StartsFitThroughout(cfg, deps, Apply(cfg, deps, s, ops[0]), ops[1..])
  }

  lemma {:induction false} StartsFitAlong(cfg: Config, deps: Deps, s: State, ops: seq<Operation>)
    requires Inv(cfg, s) && Environment(deps)
    ensures StartsFitThroughout(cfg, deps, s, ops)
    decreases |ops|
  {
    if ops != [] {
      OperationFits(cfg, deps, s, ops[0]);
      ApplySound(cfg, deps, s, ops[0]);
      StartsFitAlong(cfg, deps, Apply(cfg, deps, s, ops[0]), ops[1..]);
    }
  }

  /**
   In every run whatever enters `running` is at that moment dispatchable by its own fields, so that a todo with
   an open blocker, an inactive, terminal, unroutable or incomplete item never does, and a slot was free.
   */
  lemma OnlyDispatchableStart(cfg: Config, deps: Deps, start: int, inputs: seq<Input>)
    requires Environment(deps)
    ensures var sv := NewService(start); StartsFitThroughout(cfg, deps, sv.state, RunTrail(cfg, deps, sv, inputs))
  {
    NewServiceSound(cfg, start);
    StartsFitAlong(cfg, deps, NewService(start).state, RunTrail(cfg, deps, NewService(start), inputs));
  }

  // ----- what is dispatchable starts -----

  /** The tracker answers a request for the item with it. */
  predicate ShownAs(deps: Deps, n: nat, id: string, shown: WorkItem) {
    deps.refresh.Some? && deps.refresh.value(n, [id]).Ok?
    && deps.refresh.value(n, [id]).value != [] && deps.refresh.value(n, [id]).value[0] == shown
  }

  /** The entry of a run of the item as it is when it starts. */
  ghost predicate IsNewRun(run: Run, item: WorkItem, attempt: int, now: int, host: string, result: StartResult) {
    && run.item == item && run.attempt == attempt && run.startedAt == now && run.handle == result.handle
    && run.sessionId == result.sessionId && run.workspacePath == result.workspacePath
    && (if Trim(result.workerHost) != "" then run.workerHost == result.workerHost
        else if Trim(host) != "" then run.workerHost == host else run.workerHost == "")
    && run.lastEventAt.None? && run.lastEventKind.None? && run.lastEventMessage == "" && run.turnCount == 0
    && run.totals == Totals(0, 0, 0, 0) && run.lastReported == Totals(0, 0, 0, 0)
  }

  /** The item runs as it was started and is claimed and not queued; all else is as before. */
  ghost predicate HasStarted(s: State, t: State, item: WorkItem, attempt: int, now: int, host: string, result: StartResult) {
    && item.id in t.running && IsNewRun(t.running[item.id], item, attempt, now, host, result)
    && t.running == s.running[item.id := t.running[item.id]]
    && item.id in t.claimed && t.claimed == s.claimed[item.id := Claim(item.id, item.identifier, now)]
    && t.retrying == s.retrying - {item.id} && t.retryNonce == s.retryNonce && t.totals == s.totals
  }

  /** The item is queued again after a refused start; nothing runs or is claimed that did not or was not before. */
  ghost predicate HasBeenRefused(
    cfg: Config, s: State, t: State, item: WorkItem, attempt: int, now: int, host: string, message: string)
  {
    && t.running == s.running && t.claimed == s.claimed && t.totals == s.totals
    && t.retryNonce == s.retryNonce + 1 && t.retrying.Keys == s.retrying.Keys + {item.id}
    && (forall id :: id in s.retrying && id != item.id ==> t.retrying[id] == s.retrying[id])
    && t.retrying[item.id]
       == Retry(item.id, item.identifier, if attempt > 0 then attempt + 1 else 1,
                now + Scheduler.Backoff.FailureRetryDelay(if attempt > 0 then attempt + 1 else 1, cfg.maxRetryBackoff),
                StartFailed(message), host, "", s.retryNonce + 1)
  }

  lemma BeginRunExactly(s: State, now: int, item: WorkItem, attempt: int, host: string, result: StartResult)
    ensures HasStarted(s, BeginRun(s, now, item, attempt, host, result), item, attempt, now, host, result)
  {
  }

  lemma RefuseStartExactly(
    cfg: Config, s: State, now: int, item: WorkItem, attempt: int, host: string, message: string)
    ensures HasBeenRefused(cfg, s, RefuseStart(cfg, s, now, item, attempt, host, message), item, attempt, now, host, message)
  {
  }

  /** What startRun's answer makes of a start. */
  ghost predicate Answered(
    cfg: Config, s: State, t: State, ok: bool, answer: Answer<StartResult>, item: WorkItem, attempt: int, now: int,
    host: string)
  {
    if answer.Ok? then ok && HasStarted(s, t, item, attempt, now, host, answer.value)
    else !ok && HasBeenRefused(cfg, s, t, item, attempt, now, host, answer.message)
  }

  lemma AnsweredFrom(
    cfg: Config, s: State, called: State, t: State, ok: bool, answer: Answer<StartResult>, item: WorkItem,
    attempt: int, now: int, host: string)
    requires Unmoved(s, called) && Answered(cfg, called, t, ok, answer, item, attempt, now, host)
    ensures Answered(cfg, s, t, ok, answer, item, attempt, now, host)
  {
  }

  lemma StartOnExactly(cfg: Config, deps: Deps, s: State, now: int, item: WorkItem, attempt: int, host: string)
    requires deps.start.Some?
    ensures var answer := deps.start.value(s.calls, StartRequest(item, attempt, host));
            var (t, ok) := StartOn(cfg, deps, s, now, item, attempt, host);
            Answered(cfg, s, t, ok, answer, item, attempt, now, host)
  {
    var called, answer := s.(calls := s.calls + 1), deps.start.value(s.calls, StartRequest(item, attempt, host));
    var (t, ok) := StartOn(cfg, deps, s, now, item, attempt, host);
    if answer.Ok? {
      BeginRunExactly(called, now, item, attempt, host, answer.value);
    } else {
      RefuseStartExactly(cfg, called, now, item, attempt, host, answer.message);
    }
    AnsweredFrom(cfg, s, called, t, ok, answer, item, attempt, now, host);
  }

  /** A dispatch with a host starts the item, or queues it if startRun refuses, exactly so. */
  lemma DispatchExactly(
    cfg: Config, deps: Deps, s: State, now: int, item: WorkItem, attempt: int, preferred: string, host: string)
    requires AdmitHost(deps, s, preferred).1 == Some(host) && deps.start.Some?
    ensures var answer := deps.start.value(AdmitHost(deps, s, preferred).0.calls, StartRequest(item, attempt, host));
            var (t, ok) := DispatchItem(cfg, deps, s, now, item, attempt, preferred);
            Answered(cfg, s, t, ok, answer, item, attempt, now, host)
  {
    var admitted := AdmitHost(deps, s, preferred).0;
    var answer := deps.start.value(admitted.calls, StartRequest(item, attempt, host));
    var (t, ok) := DispatchItem(cfg, deps, s, now, item, attempt, preferred);
    StartOnExactly(cfg, deps, admitted, now, item, attempt, host);
    AnsweredFrom(cfg, s, admitted, t, ok, answer, item, attempt, now, host);
  }

  /** Without a startRun the item starts on the admitted host. */
  lemma DispatchUnattended(
    cfg: Config, deps: Deps, s: State, now: int, item: WorkItem, attempt: int, preferred: string, host: string)
    requires AdmitHost(deps, s, preferred).1 == Some(host) && deps.start.None?
    ensures var (t, ok) := DispatchItem(cfg, deps, s, now, item, attempt, preferred);
            ok && HasStarted(s, t, item, attempt, now, host, StartResult(None, host, "", ""))
  {
  }

  /** Without hosts and without an admission callback the preferred host is taken as it is. */
  lemma PreferredHostAdmitted(deps: Deps, s: State, preferred: string)
    requires deps.hosts.None? && deps.admit.None?
    ensures AdmitHost(deps, s, preferred) == (s, Some(preferred))
  {
  }

  /** Where the tracker cannot be asked, no candidate starts. */
  lemma UnaskedStartsNothing(cfg: Config, deps: Deps, s: State, now: int, item: WorkItem)
    requires deps.refresh.None?
    ensures TryCandidate(cfg, deps, s, now, item) == s
  {
  }

  /** A candidate that is taken up, shown dispatchable, admitted and accepted starts at attempt 0 on its host. */
  lemma CandidateStarts(
    cfg: Config, deps: Deps, s: State, now: int, item: WorkItem, shown: WorkItem, host: string, result: StartResult)
    requires Dispatchable(cfg, item) && item.id !in s.claimed && item.id !in s.running && HasRoom(cfg, s, item)
    requires ShownAs(deps, s.calls, item.id, shown) && Dispatchable(cfg, shown) && deps.start.Some?
    requires var called := s.(calls := s.calls + 1);
             var (admitted, chosen) := AdmitHost(deps, called, "");
             chosen == Some(host) && deps.start.value(admitted.calls, StartRequest(shown, 0, host)) == Ok(result)
    ensures HasStarted(s, TryCandidate(cfg, deps, s, now, item), shown, 0, now, host, result)
  {
    var called := s.(calls := s.calls + 1);
    DispatchedExactly(cfg, s, item);
    CandidateIsDispatchable(cfg, shown);
    assert RevalidateCandidate(cfg, deps, s, item.id) == (called, Some(shown));
    DispatchExactly(cfg, deps, called, now, shown, 0, "", host);
    AnsweredFrom(cfg, s, called, TryCandidate(cfg, deps, s, now, item), true, Ok(result), shown, 0, now, host);
  }
}
