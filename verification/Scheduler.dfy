/**
 The scheduler of internal/orchestrator/state.go as a function of its state.

 A `State` is the fields of schedulerState together with `log`, the history of what the
 scheduler did. Every call into a dependency is answered by an oracle in `Deps`; the
 oracle is also given the number of the call, so that the answers are arbitrary.
 */
module Scheduler {
  import opened Text
  import opened Domain
  import Hosts
  import Backoff

  datatype Config = Config(
    interval: int, transitionDelay: int, maxConcurrent: int, maxRetryBackoff: int, stallTimeout: int,
    activeStates: set<string>, terminalStates: set<string>, stateLimits: map<string, int>,
    lower: string -> string)
  {
    /** normalizeState; `lower` stands for strings.ToLower. */
    function Norm(state: string): string {
      lower(Trim(state))
    }

    predicate Active(state: string) {
      Norm(state) in activeStates
    }

    predicate Terminal(state: string) {
      Norm(state) in terminalStates
    }

    function StateLimit(state: string): int {
      if Norm(state) in stateLimits then stateLimits[Norm(state)] else 0
    }
  }

  datatype StartRequest = StartRequest(item: WorkItem, attempt: int, host: string)

  datatype StartResult = StartResult(handle: Option<nat>, workerHost: string, workspacePath: string, sessionId: string)

  /**
   The environment. `refresh`, `start`, `list` and `admit` are None where the source's
   function is nil; the first argument of each is the number of the call. Answers of stopRun are ignored
   by the source, so only the calls are recorded. `order` is the order
   in which Go happens to walk a map with the given keys, `sort` is sort.Slice on candidates.
   */
  datatype Deps = Deps(
    refresh: Option<(nat, seq<string>) -> Answer<seq<WorkItem>>>,
    start: Option<(nat, StartRequest) -> Answer<StartResult>>,
    list: Option<nat -> Answer<seq<WorkItem>>>,
    hosts: Option<Hosts.HostSelection>,
    admit: Option<(nat, string) -> Option<string>>,
    order: (nat, set<string>) -> seq<string>,
    sort: (nat, seq<WorkItem>) -> seq<WorkItem>)

  datatype Claim = Claim(itemId: string, identifier: string, claimedAt: int)

  datatype Run = Run(
    item: WorkItem, attempt: int, startedAt: int, lastEventAt: Option<int>, lastEventKind: Option<EventKind>,
    lastEventMessage: string, sessionId: string, turnCount: int, workerHost: string, workspacePath: string,
    totals: Totals, lastReported: Totals, handle: Option<nat>)

  /** Why a retry was queued; the source keeps the same facts as the text of LastError. */
  datatype Cause =
    | Completed
    | WorkerFailed(message: string)
    | Stalled(idle: int)
    | StartFailed(message: string)
    | RefreshFailed
    | NoSlots

  datatype Retry = Retry(
    itemId: string, identifier: string, attempt: int, dueAt: int, cause: Cause,
    workerHost: string, workspacePath: string, nonce: nat)

  /** What the scheduler did, in order. */
  datatype Action =
    | Started(id: string, attempt: int, host: string, ok: bool, handle: Option<nat>)
    | Queued(id: string, attempt: int, nonce: nat, cause: Cause)
    | Consumed(id: string, nonce: nat)
    | Dropped(id: string)
    | StopCalled(id: string, identifier: string, handle: Option<nat>, cleanup: bool)
    | Reported(id: string, totals: Totals)

  datatype State = State(
    nextPollAt: Option<int>, checking: bool, pollNonce: nat, retryNonce: nat,
    claimed: map<string, Claim>, running: map<string, Run>, retrying: map<string, Retry>,
    totals: Totals, rateLimits: Option<RateLimits>,
    calls: nat, log: seq<Action>)

  const EMPTY: State := State(None, false, 0, 0, map[], map[], map[], NO_TOTALS, None, 0, [])

  // ----- polling -----

  function SchedulePollAt(s: State, at: int): State {
    s.(pollNonce := s.pollNonce + 1, nextPollAt := Some(at))
  }

  function BeginPoll(s: State, nonce: nat): (State, bool) {
    if nonce != s.pollNonce then (s, false) else (s.(checking := true, nextPollAt := None), true)
  }

  function FinishPoll(cfg: Config, s: State, now: int): State {
    s.(nextPollAt := Some(now + cfg.interval), checking := false, pollNonce := s.pollNonce + 1)
  }

  /** The new state and whether the request was coalesced; every request is queued. */
  function RequestRefresh(s: State, now: int): (State, bool) {
    if s.checking then (s, true)
    else if s.nextPollAt.Some? && s.nextPollAt.value <= now then (s, true)
    else (SchedulePollAt(s, now), false)
  }

  // ----- eligibility -----

  predicate Blocked(cfg: Config, item: WorkItem) {
    cfg.Norm(item.state) == "todo" && exists b :: b in item.blockedBy && !cfg.Terminal(b.state)
  }

  predicate Unroutable(item: WorkItem) {
    item.routable == Some(false)
  }

  predicate RetryCandidate(cfg: Config, item: WorkItem) {
    && !IsBlank(item.id) && !IsBlank(item.identifier) && !IsBlank(item.title) && !IsBlank(item.state)
    && !cfg.Terminal(item.state) && cfg.Active(item.state)
    && !Unroutable(item)
    && !Blocked(cfg, item)
  }

  function InState(cfg: Config, running: map<string, Run>, state: string): set<string> {
    set id | id in running && cfg.Norm(running[id].item.state) == cfg.Norm(state)
  }

  predicate AtGlobalLimit(cfg: Config, s: State) {
    cfg.maxConcurrent > 0 && |s.running| >= cfg.maxConcurrent
  }

  predicate AtStateLimit(cfg: Config, s: State, state: string) {
    cfg.StateLimit(state) > 0 && |InState(cfg, s.running, state)| >= cfg.StateLimit(state)
  }

  predicate ShouldDispatch(cfg: Config, s: State, item: WorkItem) {
    && RetryCandidate(cfg, item)
    && item.id !in s.claimed
    && item.id !in s.running
    && !AtGlobalLimit(cfg, s)
    && !AtStateLimit(cfg, s, item.state)
  }

  // ----- retry queue -----

  function NextFailureAttempt(current: int): int {
    if current > 0 then current + 1 else 1
  }

  function QueueRetry(
    s: State, id: string, identifier: string, attempt: int, dueAt: int, cause: Cause, host: string, path: string): State
  {
    var nonce := s.retryNonce + 1;
    s.(retryNonce := nonce,
       retrying := s.retrying[id := Retry(id, identifier, attempt, dueAt, cause, host, path, nonce)],
       log := s.log + [Queued(id, attempt, nonce, cause)])
  }

  function ScheduleContinuationRetry(
    s: State, now: int, id: string, identifier: string, host: string, path: string): State
  {
    QueueRetry(s, id, identifier, 1, now + 1_000_000_000, Completed, host, path)
  }

  function ScheduleFailureRetry(
    cfg: Config, s: State, now: int, id: string, identifier: string, attempt: int, cause: Cause,
    host: string, path: string): State
  {
    var n := if attempt <= 0 then 1 else attempt;
    QueueRetry(s, id, identifier, n, now + Backoff.FailureRetryDelay(n, cfg.maxRetryBackoff), cause, host, path)
  }

  // ----- dispatch -----

  function OnHost(running: map<string, Run>, host: string): set<string> {
    set id | id in running && Trim(running[id].workerHost) == host
  }

  function HostsInUse(running: map<string, Run>): set<string> {
    set id | id in running && !IsBlank(running[id].workerHost) :: Trim(running[id].workerHost)
  }

  function HostCount(running: map<string, Run>): map<string, int> {
    map host | host in HostsInUse(running) :: |OnHost(running, host)|
  }

  function AdmitHost(deps: Deps, s: State, preferred: string): (State, Option<string>) {
    if deps.hosts.Some? then (s, Hosts.Choose(deps.hosts.value, preferred, HostCount(s.running)))
    else if deps.admit.None? then (s, Some(preferred))
    else (s.(calls := s.calls + 1), deps.admit.value(s.calls, preferred))
  }

  /** The run starts: claimed, running, no longer queued. */
  function BeginRun(s: State, now: int, item: WorkItem, attempt: int, host: string, result: StartResult): State {
    s.(claimed := s.claimed[item.id := Claim(item.id, item.identifier, now)],
       running := s.running[item.id := Run(item, attempt, now, None, None, "", result.sessionId, 0,
                                           FirstNonEmpty(result.workerHost, host), result.workspacePath,
                                           NO_TOTALS, NO_TOTALS, result.handle)],
       retrying := s.retrying - {item.id},
       log := s.log + [Started(item.id, attempt, host, true, result.handle)])
  }

  /** startRun; where none is configured the run simply starts on the admitted host. */
  function CallStart(deps: Deps, s: State, request: StartRequest): (State, Answer<StartResult>) {
    if deps.start.None? then (s, Ok(StartResult(None, request.host, "", "")))
    else (s.(calls := s.calls + 1), deps.start.value(s.calls, request))
  }

  function RefuseStart(
    cfg: Config, s: State, now: int, item: WorkItem, attempt: int, host: string, message: string): State
  {
    ScheduleFailureRetry(cfg, s.(log := s.log + [Started(item.id, attempt, host, false, None)]), now,
                         item.id, item.identifier, NextFailureAttempt(attempt), StartFailed(message), host, "")
  }

  function StartOn(
    cfg: Config, deps: Deps, s: State, now: int, item: WorkItem, attempt: int, host: string): (State, bool)
  {
    var (called, answer) := CallStart(deps, s, StartRequest(item, attempt, host));
    match answer
    case Ok(result) => (BeginRun(called, now, item, attempt, host, result), true)
    case Err(message) => (RefuseStart(cfg, called, now, item, attempt, host, message), false)
  }

  function DispatchItem(
    cfg: Config, deps: Deps, s: State, now: int, item: WorkItem, attempt: int, preferred: string): (State, bool)
  {
    var (admitted, host) := AdmitHost(deps, s, preferred);
    if host.None? then (admitted, false) else StartOn(cfg, deps, admitted, now, item, attempt, host.value)
  }

  function RevalidateCandidate(cfg: Config, deps: Deps, s: State, id: string): (State, Option<WorkItem>) {
    if deps.refresh.None? then (s, if id in s.running then Some(s.running[id].item) else None)
    else
      var answer := deps.refresh.value(s.calls, [id]);
      var called := s.(calls := s.calls + 1);
      if answer.Err? || answer.value == [] || !RetryCandidate(cfg, answer.value[0]) then (called, None)
      else (called, Some(answer.value[0]))
  }

  function TryCandidate(cfg: Config, deps: Deps, s: State, now: int, item: WorkItem): State {
    if !ShouldDispatch(cfg, s, item) then s
    else
      var (called, refreshed) := RevalidateCandidate(cfg, deps, s, item.id);
      if refreshed.None? then called else DispatchItem(cfg, deps, called, now, refreshed.value, 0, "").0
  }

  function TryCandidates(cfg: Config, deps: Deps, s: State, now: int, items: seq<WorkItem>): State
    decreases |items|
  {
    if items == [] then s
    else TryCandidates(cfg, deps, TryCandidate(cfg, deps, s, now, items[0]), now, items[1..])
  }

  function ProcessCandidates(cfg: Config, deps: Deps, s: State, now: int, candidates: seq<WorkItem>): State
  {
    TryCandidates(cfg, deps, s.(calls := s.calls + 1), now, deps.sort(s.calls, candidates))
  }

  // ----- worker events -----

  function Increase(before: int, after: int): int {
    if after > before then after - before else 0
  }

  function AddIncrease(sum: Totals, before: Totals, after: Totals): Totals {
    Totals(sum.input + Increase(before.input, after.input),
           sum.output + Increase(before.output, after.output),
           sum.total + Increase(before.total, after.total),
           sum.seconds + Increase(before.seconds, after.seconds))
  }

  function StampMetadata(run: Run, event: RunEvent): Run {
    run.(
      lastEventAt := if event.at.Some? then event.at else run.lastEventAt,
      lastEventKind := Some(event.kind),
      lastEventMessage := event.message,
      workerHost := if event.workerHost != "" then event.workerHost else run.workerHost,
      workspacePath := if event.workspacePath != "" then event.workspacePath else run.workspacePath,
      sessionId := if event.sessionId != "" then event.sessionId else run.sessionId,
      turnCount := if event.kind.TurnCompleted? then run.turnCount + 1 else run.turnCount)
  }

  /** The running entry after the event's metadata and totals are stamped on it. */
  function Stamp(run: Run, event: RunEvent): Run {
    var stamped := StampMetadata(run, event);
    if event.totals != NO_TOTALS then stamped.(totals := event.totals, lastReported := event.totals) else stamped
  }

  /** The state after the event's totals and rate limits are taken over. */
  function Account(s: State, event: RunEvent): State
    requires event.itemId in s.running
  {
    var counted :=
      if event.totals != NO_TOTALS then
        s.(totals := AddIncrease(s.totals, s.running[event.itemId].lastReported, event.totals),
           log := s.log + [Reported(event.itemId, event.totals)])
      else s;
    counted.(rateLimits := if event.rateLimits.Some? then event.rateLimits else counted.rateLimits)
  }

  /** The switch on the event's kind; `run` is the stamped entry. */
  function Conclude(cfg: Config, s: State, now: int, event: RunEvent, run: Run): State {
    var gone := s.(running := s.running - {event.itemId});
    match event.kind
    case RunCompleted =>
      ScheduleContinuationRetry(gone, now, run.item.id, run.item.identifier, run.workerHost, run.workspacePath)
    case RunFailed =>
      ScheduleFailureRetry(cfg, gone, now, run.item.id, run.item.identifier, NextFailureAttempt(run.attempt),
                           WorkerFailed(event.error.GetOr(event.message)), run.workerHost, run.workspacePath)
    case _ => s.(running := s.running[event.itemId := run])
  }

  function ApplyRunEvent(cfg: Config, s: State, now: int, event: RunEvent): State {
    if event.itemId !in s.running then s
    else Conclude(cfg, Account(s, event), now, event, Stamp(s.running[event.itemId], event))
  }

  // ----- due retries -----

  function StopWithIntent(s: State, id: string, identifier: string, handle: Option<nat>, cleanup: bool): State {
    s.(calls := s.calls + 1, log := s.log + [StopCalled(id, identifier, handle, cleanup)])
  }

  /** The claim is given up while the item is not running. */
  function Release(s: State, id: string): State {
    s.(claimed := s.claimed - {id}, log := s.log + [Dropped(id)])
  }

  datatype RetryStatus =
    | Ready(item: WorkItem) | Missing | TerminalItem | Ineligible | RetryRefreshFailed

  function RefreshRetryItem(cfg: Config, deps: Deps, s: State, id: string): (State, RetryStatus) {
    if deps.refresh.None? then (s, RetryRefreshFailed)
    else
      var answer := deps.refresh.value(s.calls, [id]);
      (s.(calls := s.calls + 1),
       if answer.Err? then RetryRefreshFailed
       else if answer.value == [] then Missing
       else if cfg.Terminal(answer.value[0].state) then TerminalItem
       else if !RetryCandidate(cfg, answer.value[0]) then Ineligible
       else Ready(answer.value[0]))
  }

  function Requeue(
    cfg: Config, s: State, now: int, id: string, entry: Retry, identifier: string, cause: Cause): State
  {
    ScheduleFailureRetry(cfg, s, now, id, identifier, entry.attempt + 1, cause, entry.workerHost, entry.workspacePath)
  }

  function Consume(s: State, id: string, nonce: nat): State {
    s.(retrying := s.retrying - {id}, log := s.log + [Consumed(id, nonce)])
  }

  function Redispatch(
    cfg: Config, deps: Deps, s: State, now: int, id: string, entry: Retry, item: WorkItem): State
  {
    if AtGlobalLimit(cfg, s) || AtStateLimit(cfg, s, item.state) then
      Requeue(cfg, s, now, id, entry, item.identifier, NoSlots)
    else
      var (dispatched, ok) := DispatchItem(cfg, deps, s, now, item, entry.attempt, entry.workerHost);
      if !ok && id !in dispatched.retrying then
        Requeue(cfg, dispatched, now, id, entry, item.identifier, NoSlots)
      else dispatched
  }

  function Settle(
    cfg: Config, deps: Deps, s: State, now: int, id: string, entry: Retry, status: RetryStatus): State
  {
    match status
    case Missing => Release(s, id)
    case TerminalItem => StopWithIntent(Release(s, id), id, entry.identifier, None, true)
    case Ineligible => StopWithIntent(Release(s, id), id, entry.identifier, None, false)
    case RetryRefreshFailed => Requeue(cfg, s, now, id, entry, entry.identifier, RefreshFailed)
    case Ready(item) => Redispatch(cfg, deps, s, now, id, entry, item)
  }

  function HandleDueRetry(cfg: Config, deps: Deps, s: State, now: int, id: string, nonce: nat): State {
    if id !in s.retrying || s.retrying[id].nonce != nonce then s
    else
      var (due, status) := RefreshRetryItem(cfg, deps, Consume(s, id, nonce), id);
      Settle(cfg, deps, due, now, id, s.retrying[id], status)
  }

  // ----- reconciliation -----

  function LastActivity(run: Run): int {
    if run.lastEventAt.Some? then run.lastEventAt.value else run.startedAt
  }

  predicate IsStalled(cfg: Config, run: Run, now: int) {
    now - LastActivity(run) > cfg.stallTimeout
  }

  function StallRun(cfg: Config, s: State, now: int, id: string, run: Run): State {
    var gone := s.(running := s.running - {id});
    ScheduleFailureRetry(cfg, StopWithIntent(gone, id, run.item.identifier, run.handle, false), now,
                         id, run.item.identifier, NextFailureAttempt(run.attempt),
                         Stalled(now - LastActivity(run)), run.workerHost, run.workspacePath)
  }

  /** The loop over the cloned running map, in the given order; `runs` is the clone. */
  function StallEach(
    cfg: Config, s: State, now: int, runs: map<string, Run>, ids: seq<string>): State
    requires forall id :: id in ids ==> id in runs
    decreases |ids|
  {
    if ids == [] then s
    else
      var run := runs[ids[0]];
      StallEach(cfg, if IsStalled(cfg, run, now) then StallRun(cfg, s, now, ids[0], run) else s,
                now, runs, ids[1..])
  }

  ghost predicate WellOrdered(deps: Deps) {
    forall n: nat, keys: set<string> :: Lists(deps.order(n, keys), keys)
  }

  ghost function ReconcileStalled(cfg: Config, deps: Deps, s: State, now: int): State
    requires WellOrdered(deps)
  {
    if cfg.stallTimeout <= 0 then s
    else
      var ids := deps.order(s.calls, s.running.Keys);
      assert Lists(ids, s.running.Keys);
      StallEach(cfg, s.(calls := s.calls + 1), now, s.running, ids)
  }

  /** The last item of each ID wins, as the source's map does. */
  function ById(items: seq<WorkItem>): map<string, WorkItem> {
    if items == [] then map[]
    else ById(items[..|items| - 1])[items[|items| - 1].id := items[|items| - 1]]
  }

  predicate Keeps(cfg: Config, visible: map<string, WorkItem>, id: string) {
    id in visible && !cfg.Terminal(visible[id].state) && cfg.Active(visible[id].state) && !Unroutable(visible[id])
  }

  /** Whether the workspace of a dropped run is cleaned up. */
  predicate Cleans(cfg: Config, visible: map<string, WorkItem>, id: string) {
    id in visible && cfg.Terminal(visible[id].state)
  }

  function DropRun(s: State, id: string): State {
    s.(running := s.running - {id}, claimed := s.claimed - {id}, retrying := s.retrying - {id},
       log := s.log + [Dropped(id)])
  }

  function InvalidateRun(s: State, run: Run, cleanup: bool): State {
    StopWithIntent(DropRun(s, run.item.id), run.item.id, run.item.identifier, run.handle, cleanup)
  }

  function ReconcileOne(
    cfg: Config, s: State, visible: map<string, WorkItem>, id: string, run: Run): State
  {
    if Keeps(cfg, visible, id) then s.(running := s.running[id := run.(item := visible[id])])
    else InvalidateRun(s, run, Cleans(cfg, visible, id))
  }

  function ReconcileEach(
    cfg: Config, s: State, visible: map<string, WorkItem>, runs: map<string, Run>, ids: seq<string>): State
    requires forall id :: id in ids ==> id in runs
    decreases |ids|
  {
    if ids == [] then s
    else ReconcileEach(cfg, ReconcileOne(cfg, s, visible, ids[0], runs[ids[0]]), visible, runs, ids[1..])
  }

  /** The pass over the running items once the tracker has answered; it counts the walk, the request and a second walk. */
  ghost function ReconcileAnswer(cfg: Config, deps: Deps, s: State, answer: Answer<seq<WorkItem>>): State
    requires WellOrdered(deps)
  {
    if answer.Err? then s.(calls := s.calls + 2)
    else
      var ids := deps.order(s.calls + 2, s.running.Keys);
      assert Lists(ids, s.running.Keys);
      ReconcileEach(cfg, s.(calls := s.calls + 3), ById(answer.value), s.running, ids)
  }

  ghost function ReconcileRunning(cfg: Config, deps: Deps, s: State): State
    requires WellOrdered(deps)
  {
    if s.running == map[] || deps.refresh.None? then s
    else ReconcileAnswer(cfg, deps, s, deps.refresh.value(s.calls + 1, deps.order(s.calls, s.running.Keys)))
  }
}
