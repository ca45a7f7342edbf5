/**
 Starts of queued items before their retry is taken: in any run such a start is of an unclaimed item and at
 attempt 0, and where no candidate is refused there is none. A run in which there is one ends the module.
 */
module EarlyStarts {
  import opened Domain
  import opened Scheduler
  import opened Lifecycle
  import opened Safety
  import opened Service
  import opened ServiceSafety
  import opened Runs
  import opened Trails
  import opened Rounds
  import opened QueuedClaims
  import Additions
  import DispatchPass
  import Frames

  // ----- starts before a retry is due -----

  /** No first attempt at an item is refused from `s` to `t`. */
  ghost predicate NoneFreshlyRefused(s: State, t: State) {
    s.log <= t.log && forall k, id :: |s.log| <= k < |t.log| ==> !IsFreshRefusal(t.log[k], id)
  }

  lemma DispatchRefusesNone(
    cfg: Config, deps: Deps, s: State, now: int, item: WorkItem, attempt: int, preferred: string)
    requires attempt != 0 || (preferred == "" && !DispatchRefused(cfg, deps, s, item))
    ensures NoneFreshlyRefused(s, DispatchItem(cfg, deps, s, now, item, attempt, preferred).0)
  {
    var (admitted, host) := AdmitHost(deps, s, preferred);
    if host.Some? {
      StartRefusesNone(cfg, deps, admitted, now, item, attempt, host.value);
    }
  }

  lemma StartRefusesNone(cfg: Config, deps: Deps, s: State, now: int, item: WorkItem, attempt: int, host: string)
    requires attempt != 0 || CallStart(deps, s, StartRequest(item, attempt, host)).1.Ok?
    ensures NoneFreshlyRefused(s, StartOn(cfg, deps, s, now, item, attempt, host).0)
  {
  }

  lemma CandidateRefusesNone(cfg: Config, deps: Deps, s: State, now: int, item: WorkItem)
    requires Fits(cfg, deps, s, Candidate(now, item))
    ensures NoneFreshlyRefused(s, TryCandidate(cfg, deps, s, now, item))
  {
    if ShouldDispatch(cfg, s, item) {
      var (called, refreshed) := RevalidateCandidate(cfg, deps, s, item.id);
      if refreshed.Some? {
        DispatchRefusesNone(cfg, deps, called, now, refreshed.value, 0, "");
      }
    }
  }

  lemma SettleRefusesNone(cfg: Config, deps: Deps, s: State, now: int, id: string, entry: Retry, status: RetryStatus)
    requires entry.attempt != 0
    ensures NoneFreshlyRefused(s, Settle(cfg, deps, s, now, id, entry, status))
  {
    if status.Ready? {
      DispatchRefusesNone(cfg, deps, s, now, status.item, entry.attempt, entry.workerHost);
    }
  }

  lemma RetryRefusesNone(cfg: Config, deps: Deps, s: State, now: int, id: string, nonce: nat)
    requires Inv(cfg, s)
    ensures NoneFreshlyRefused(s, HandleDueRetry(cfg, deps, s, now, id, nonce))
  {
    assert Sound(s, id);
    if id in s.retrying && s.retrying[id].nonce == nonce {
      var (due, status) := RefreshRetryItem(cfg, deps, Consume(s, id, nonce), id);
      SettleRefusesNone(cfg, deps, due, now, id, s.retrying[id], status);
    }
  }

  lemma EventRefusesNone(cfg: Config, s: State, now: int, event: RunEvent)
    requires Inv(cfg, s)
    ensures NoneFreshlyRefused(s, ApplyRunEvent(cfg, s, now, event))
  {
    var t := ApplyRunEvent(cfg, s, now, event);
    forall k, id | |s.log| <= k < |t.log| ensures !IsFreshRefusal(t.log[k], id) {
      Additions.EventAdds(cfg, s, now, event, k);
    }
    Frames.ApplyRunEventEvolves(cfg, s, now, event);
  }

  lemma OperationRefusesNone(cfg: Config, deps: Deps, s: State, op: Operation)
    requires Inv(cfg, s) && WellOrdered(deps) && Fits(cfg, deps, s, op)
    ensures NoneFreshlyRefused(s, Apply(cfg, deps, s, op))
  {
    match op
    case Quiet(_) =>
    case Stalls(now) => Additions.StallsSilent(cfg, deps, s, now);
    case Refreshes => Additions.RefreshSilent(cfg, deps, s);
    case Candidate(now, item) => CandidateRefusesNone(cfg, deps, s, now, item);
    case TakeRetry(now, id, nonce) => RetryRefusesNone(cfg, deps, s, now, id, nonce);
    case Arrives(now, event) => EventRefusesNone(cfg, s, now, event);
  }

  lemma {:induction false} AlongRefusesNone(cfg: Config, deps: Deps, s: State, ops: seq<Operation>)
    requires Inv(cfg, s) && Environment(deps) && NoneRefused(cfg, deps, s, ops)
    ensures NoneFreshlyRefused(s, Along(cfg, deps, s, ops))
    decreases |ops|
  {
    if ops != [] {
      OperationRefusesNone(cfg, deps, s, ops[0]);
      ApplySound(cfg, deps, s, ops[0]);
      AlongRefusesNone(cfg, deps, Apply(cfg, deps, s, ops[0]), ops[1..]);
    }
  }

  /** In a run in which no candidate is refused, no queued item starts before its retry has been taken. */
  lemma NoneStartsEarly(cfg: Config, deps: Deps, start: int, inputs: seq<Input>, q: nat, i: nat)
    requires Environment(deps)
    requires NoneRefused(cfg, deps, NewService(start).state, RunTrail(cfg, deps, NewService(start), inputs))
    requires var log := After(cfg, deps, start, inputs).state.log;
             q < i < |log| && log[q].Queued? && log[i].Started? && log[i].id == log[q].id
    ensures var log := After(cfg, deps, start, inputs).state.log;
            exists k :: q < k < i && log[k].Consumed? && log[k].id == log[q].id && log[k].nonce == log[q].nonce
  {
    NewServiceSound(cfg, start);
    AlongRefusesNone(cfg, deps, NewService(start).state, RunTrail(cfg, deps, NewService(start), inputs));
    RunIsTrail(cfg, deps, NewService(start), inputs);
    AfterSound(cfg, deps, start, inputs);
    var log := After(cfg, deps, start, inputs).state.log;
    TakenBeforeStart(log, q, i, log[q].id);
  }

  /** A queued item that starts, in any run, before its retry has been taken was not claimed, and starts afresh. */
  lemma EarlyStartsAreFresh(cfg: Config, deps: Deps, start: int, inputs: seq<Input>, q: nat, i: nat)
    requires Environment(deps)
    requires var log := After(cfg, deps, start, inputs).state.log;
             && q < i < |log| && log[q].Queued? && log[i].Started? && log[i].id == log[q].id
             && forall k :: q < k < i && log[k].id == log[q].id ==>
                  !log[k].Started? && !(log[k].Consumed? && log[k].nonce == log[q].nonce)
    ensures var log := After(cfg, deps, start, inputs).state.log;
            !HasClaim(PhaseOf(log[..i], log[q].id)) && log[i].attempt == 0
  {
    AfterSound(cfg, deps, start, inputs);
    var log := After(cfg, deps, start, inputs).state.log;
    EarlyStartIsFresh(log, q, i, log[q].id);
  }

  // ----- it happens -----

  /** A tracker that shows one item, and a startRun that refuses its first calls. */
  ghost function Refusing(item: WorkItem): Deps {
    Deps(Some((n: nat, ids: seq<string>) => Ok(if ids == [item.id] then [item] else [])),
         Some((n: nat, request: StartRequest) => if n < 6 then Err("refused") else Ok(StartResult(None, "", "", ""))),
         Some((n: nat) => Ok([item])), Some(NO_HOSTS), None,
         (n: nat, keys: set<string>) => AnyOrder(keys), AnySort())
  }

  /** What the runs below need of such an environment. */
  ghost predicate RefusesFirst(deps: Deps, item: WorkItem) {
    && Environment(deps) && DispatchPass.SortsCandidates(deps) && Shows(deps, item)
    && deps.list.Some? && (forall n: nat :: deps.list.value(n) == Ok([item]))
    && deps.start.Some? && (forall n: nat, request :: deps.start.value(n, request).Err? <==> n < 6)
  }

  lemma RefusingRefuses(item: WorkItem)
    ensures RefusesFirst(Refusing(item), item)
  {
    AnySortSorts(Refusing(item));
  }

  lemma RefusedStart(cfg: Config, deps: Deps, s: State, now: int, item: WorkItem)
    requires deps.start.Some? && deps.start.value(s.calls, StartRequest(item, 0, "")).Err?
    ensures var t := StartOn(cfg, deps, s, now, item, 0, "").0;
            && t.running == s.running && t.claimed == s.claimed && t.calls == s.calls + 1
            && item.id in t.retrying
            && t.retrying[item.id].dueAt == now + Scheduler.Backoff.FailureRetryDelay(1, cfg.maxRetryBackoff)
  {
  }

  lemma AcceptedStart(cfg: Config, deps: Deps, s: State, now: int, item: WorkItem)
    requires deps.start.Some? && deps.start.value(s.calls, StartRequest(item, 0, "")).Ok?
    ensures var t := StartOn(cfg, deps, s, now, item, 0, "").0;
            item.id in t.running && t.running[item.id].attempt == 0 && t.running[item.id].startedAt == now
            && item.id !in t.retrying
  {
  }

  /** Queued for its first retry after a refusal at `now`, and not claimed. */
  ghost predicate JustRefused(cfg: Config, sv: ServiceState, item: WorkItem, now: int) {
    && Resting(cfg, sv) && sv.state.calls == 6 && sv.state.running == map[] && sv.state.claimed == map[]
    && item.id in sv.state.retrying
    && sv.state.retrying[item.id].dueAt == now + Scheduler.Backoff.FailureRetryDelay(1, cfg.maxRetryBackoff)
  }

  lemma FirstRefused(cfg: Config, deps: Deps, item: WorkItem, start: int)
    requires RefusesFirst(deps, item) && cfg.stallTimeout <= 0 && ShouldDispatch(cfg, EMPTY, item)
    ensures var sv, now := NewService(start), FirstAt(cfg, start);
            && JustRefused(cfg, RunFrom(cfg, deps, sv, Poll(cfg, sv, now)), item, now)
            && Timely(cfg, deps, sv, Poll(cfg, sv, now), start) && EndOf(Poll(cfg, sv, now), start) == now
  {
    var sv, now := NewService(start), FirstAt(cfg, start);
    StartRests(cfg, start);
    PollTimely(cfg, deps, sv, now, start);
    StillDispatched(cfg, EMPTY, Begun(sv.state), item);
    PollShown(cfg, deps, sv, Begun(sv.state), now, item);
    RefusedStart(cfg, deps, Begun(sv.state).(calls := 3), now, item);
  }

  lemma StartsAtLast(cfg: Config, deps: Deps, sv: ServiceState, item: WorkItem, now: int)
    requires RefusesFirst(deps, item) && cfg.stallTimeout <= 0 && ShouldDispatch(cfg, EMPTY, item)
    requires Resting(cfg, sv) && sv.state.calls == 6 && sv.state.running == map[] && sv.state.claimed == map[]
    ensures var s := RunFrom(cfg, deps, sv, Poll(cfg, sv, now)).state;
            && item.id in s.running && s.running[item.id].attempt == 0 && s.running[item.id].startedAt == now
            && item.id !in s.retrying
  {
    StillDispatched(cfg, EMPTY, Begun(sv.state), item);
    PollShown(cfg, deps, sv, Begun(sv.state), now, item);
    AcceptedStart(cfg, deps, Begun(sv.state).(calls := 9), now, item);
  }

  /** Asked to refresh at once, the service polls again and starts the item at attempt 0. */
  lemma PollsAgain(cfg: Config, deps: Deps, sv: ServiceState, item: WorkItem, now: int) returns (inputs: seq<Input>)
    requires RefusesFirst(deps, item) && cfg.stallTimeout <= 0 && ShouldDispatch(cfg, EMPTY, item)
    requires JustRefused(cfg, sv, item, now)
    ensures Timely(cfg, deps, sv, inputs, now) && EndOf(inputs, now) == FirstAt(cfg, now)
    ensures var s := RunFrom(cfg, deps, sv, inputs).state;
            && item.id in s.running && s.running[item.id].attempt == 0
            && s.running[item.id].startedAt == FirstAt(cfg, now) && item.id !in s.retrying
  {
    var asked, later := RunFrom(cfg, deps, sv, [Ask(now)]), FirstAt(cfg, now);
    AskRun(cfg, deps, sv, now);
    AskTimely(cfg, deps, sv, now, now);
    PollTimely(cfg, deps, asked, later, now);
    TimelyAppend(cfg, deps, sv, [Ask(now)], Poll(cfg, asked, later), now);
    inputs := [Ask(now)] + Poll(cfg, asked, later);
    StartsAtLast(cfg, deps, asked, item, later);
  }

  /** A run in which startRun refuses the only item: it is queued and not claimed. */
  lemma UnclaimedRetryHappens(cfg: Config, item: WorkItem, start: int) returns (inputs: seq<Input>)
    requires cfg.stallTimeout <= 0 && ShouldDispatch(cfg, EMPTY, item)
    ensures Environment(Refusing(item)) && Timely(cfg, Refusing(item), NewService(start), inputs, start)
    ensures var s := After(cfg, Refusing(item), start, inputs).state;
            item.id in s.retrying && item.id !in s.claimed && !ClaimsHold(s)
  {
    RefusingRefuses(item);
    FirstRefused(cfg, Refusing(item), item, start);
    inputs := Poll(cfg, NewService(start), FirstAt(cfg, start));
  }

  /**
   The same run, asked to refresh: the item starts at attempt 0 although its retry is not yet due, as long as
   the delay before a cycle is shorter than the first backoff.
   */
  lemma UnclaimedStartsEarly(cfg: Config, item: WorkItem, start: int) returns (first: seq<Input>, more: seq<Input>)
    requires cfg.stallTimeout <= 0 && ShouldDispatch(cfg, EMPTY, item)
    requires Max0(cfg.transitionDelay) < Scheduler.Backoff.FailureRetryDelay(1, cfg.maxRetryBackoff)
    ensures Environment(Refusing(item)) && Timely(cfg, Refusing(item), NewService(start), first + more, start)
    ensures var queued := After(cfg, Refusing(item), start, first).state;
            var s := After(cfg, Refusing(item), start, first + more).state;
            && item.id in queued.retrying && item.id in s.running && item.id !in s.retrying
            && s.running[item.id].attempt == 0 && s.running[item.id].startedAt < queued.retrying[item.id].dueAt
  {
    var deps, now := Refusing(item), FirstAt(cfg, start);
    RefusingRefuses(item);
    FirstRefused(cfg, deps, item, start);
    first := Poll(cfg, NewService(start), now);
    more := PollsAgain(cfg, deps, After(cfg, deps, start, first), item, now);
    TimelyAppend(cfg, deps, NewService(start), first, more, start);
  }
}
