/**
 Whether every queued retry is claimed. It is not: a candidate that startRun refuses is queued without a
 claim. Every other operation keeps it, so it holds throughout a run exactly when no candidate is refused.
 */
module QueuedClaims {
  import opened Domain
  import opened Scheduler
  import opened Lifecycle
  import opened Safety
  import opened Service
  import opened ServiceSafety
  import opened Runs
  import opened Trails
  import Reconciliation

  ghost predicate ClaimsHold(s: State) {
    s.retrying.Keys <= s.claimed.Keys
  }

  /** The item gets a host, and startRun refuses it. */
  predicate DispatchRefused(cfg: Config, deps: Deps, s: State, item: WorkItem) {
    var (admitted, host) := AdmitHost(deps, s, "");
    host.Some? && CallStart(deps, admitted, StartRequest(item, 0, host.value)).1.Err?
  }

  /** The candidate reaches startRun, and startRun refuses it. */
  predicate StartRefused(cfg: Config, deps: Deps, s: State, item: WorkItem) {
    var (called, refreshed) := RevalidateCandidate(cfg, deps, s, item.id);
    refreshed.Some? && DispatchRefused(cfg, deps, called, refreshed.value)
  }

  /** The same items are queued and claimed, but for one. */
  ghost predicate SameBut(s: State, t: State, id: string) {
    forall other :: other != id ==>
      (other in t.retrying <==> other in s.retrying) && (other in t.claimed <==> other in s.claimed)
  }

  lemma StartOnClaims(cfg: Config, deps: Deps, s: State, now: int, item: WorkItem, attempt: int, host: string)
    ensures var t := StartOn(cfg, deps, s, now, item, attempt, host).0;
            && SameBut(s, t, item.id)
            && (CallStart(deps, s, StartRequest(item, attempt, host)).1.Err? ==>
                  item.id in t.retrying && (item.id in t.claimed <==> item.id in s.claimed))
            && (CallStart(deps, s, StartRequest(item, attempt, host)).1.Ok? ==> item.id !in t.retrying)
  {
  }

  lemma DispatchClaims(cfg: Config, deps: Deps, s: State, now: int, item: WorkItem, attempt: int, preferred: string)
    ensures var t := DispatchItem(cfg, deps, s, now, item, attempt, preferred).0;
            && SameBut(s, t, item.id)
            && (item.id in t.retrying && item.id !in s.retrying ==> (item.id in t.claimed <==> item.id in s.claimed))
  {
    var (admitted, host) := AdmitHost(deps, s, preferred);
    if host.Some? {
      StartOnClaims(cfg, deps, admitted, now, item, attempt, host.value);
    }
  }

  lemma DispatchLeavesUnclaimedExactly(cfg: Config, deps: Deps, s: State, now: int, item: WorkItem)
    requires item.id !in s.retrying && item.id !in s.claimed
    ensures var t := DispatchItem(cfg, deps, s, now, item, 0, "").0;
            (item.id in t.retrying && item.id !in t.claimed) <==> DispatchRefused(cfg, deps, s, item)
  {
    var (admitted, host) := AdmitHost(deps, s, "");
    if host.Some? {
      StartOnClaims(cfg, deps, admitted, now, item, 0, host.value);
    }
  }

  /** A fresh candidate ends up queued without a claim exactly when startRun refuses it. */
  lemma UnclaimedRetryExactly(cfg: Config, deps: Deps, s: State, now: int, item: WorkItem)
    requires Inv(cfg, s) && EchoesId(deps) && ShouldDispatch(cfg, s, item) && item.id !in s.retrying
    ensures var t := TryCandidate(cfg, deps, s, now, item);
            (item.id in t.retrying && item.id !in t.claimed) <==> StartRefused(cfg, deps, s, item)
  {
    RevalidateEchoes(cfg, deps, s, item.id);
    var (called, refreshed) := RevalidateCandidate(cfg, deps, s, item.id);
    if refreshed.Some? {
      DispatchLeavesUnclaimedExactly(cfg, deps, called, now, refreshed.value);
    }
  }

  lemma CandidateTouchesOne(cfg: Config, deps: Deps, s: State, now: int, item: WorkItem)
    requires EchoesId(deps)
    ensures SameBut(s, TryCandidate(cfg, deps, s, now, item), item.id)
  {
    if ShouldDispatch(cfg, s, item) {
      RevalidateEchoes(cfg, deps, s, item.id);
      var (called, refreshed) := RevalidateCandidate(cfg, deps, s, item.id);
      if refreshed.Some? {
        DispatchClaims(cfg, deps, called, now, refreshed.value, 0, "");
      }
    }
  }

  // ----- every operation -----

  /** What an operation must not do for the claims to survive it. */
  predicate Fits(cfg: Config, deps: Deps, s: State, op: Operation) {
    op.Candidate? && ShouldDispatch(cfg, s, op.item) ==> !StartRefused(cfg, deps, s, op.item)
  }

  lemma CandidateKeepsClaimsExactly(cfg: Config, deps: Deps, s: State, now: int, item: WorkItem)
    requires Inv(cfg, s) && EchoesId(deps) && ClaimsHold(s)
    ensures ClaimsHold(TryCandidate(cfg, deps, s, now, item)) <==> Fits(cfg, deps, s, Candidate(now, item))
  {
    var t := TryCandidate(cfg, deps, s, now, item);
    CandidateTouchesOne(cfg, deps, s, now, item);
    if ShouldDispatch(cfg, s, item) {
      UnclaimedRetryExactly(cfg, deps, s, now, item);
      assert ClaimsHold(t) <==> (item.id in t.retrying ==> item.id in t.claimed);
    }
  }

  lemma StallsKeepClaims(cfg: Config, deps: Deps, s: State, now: int)
    requires Inv(cfg, s) && WellOrdered(deps) && ClaimsHold(s)
    ensures ClaimsHold(Scheduler.ReconcileStalled(cfg, deps, s, now))
  {
    if cfg.stallTimeout > 0 {
      var t := Scheduler.ReconcileStalled(cfg, deps, s, now);
      forall id | id in t.retrying ensures id in t.claimed {
        assert Sound(s, id);
        Reconciliation.ReconcileStalledExact(cfg, deps, s, now, id);
      }
    }
  }

  lemma RefreshKeepsClaims(cfg: Config, deps: Deps, s: State)
    requires Inv(cfg, s) && WellOrdered(deps) && ClaimsHold(s)
    ensures ClaimsHold(Scheduler.ReconcileRunning(cfg, deps, s))
  {
    if s.running != map[] && deps.refresh.Some? {
      var answer := deps.refresh.value(s.calls + 1, deps.order(s.calls, s.running.Keys));
      if answer.Ok? {
        var t := ReconcileAnswer(cfg, deps, s, answer);
        forall id | id in t.retrying ensures id in t.claimed {
          assert Sound(s, id);
          Reconciliation.ReconcileAnswerExact(cfg, deps, s, answer, id);
        }
      }
    }
  }

  lemma SettleKeepsClaims(cfg: Config, deps: Deps, s: State, now: int, id: string, entry: Retry, status: RetryStatus)
    requires ClaimsHold(s) && id !in s.retrying && id in s.claimed
    requires status.Ready? ==> status.item.id == id
    ensures ClaimsHold(Settle(cfg, deps, s, now, id, entry, status))
  {
    if status.Ready? {
      DispatchClaims(cfg, deps, s, now, status.item, entry.attempt, entry.workerHost);
    }
  }

  lemma RetryKeepsClaims(cfg: Config, deps: Deps, s: State, now: int, id: string, nonce: nat)
    requires Inv(cfg, s) && EchoesId(deps) && ClaimsHold(s)
    ensures ClaimsHold(HandleDueRetry(cfg, deps, s, now, id, nonce))
  {
    if id in s.retrying && s.retrying[id].nonce == nonce {
      var (due, status) := RefreshRetryItem(cfg, deps, Consume(s, id, nonce), id);
      SettleKeepsClaims(cfg, deps, due, now, id, s.retrying[id], status);
    }
  }

  lemma EventKeepsClaims(cfg: Config, s: State, now: int, event: RunEvent)
    requires Inv(cfg, s) && ClaimsHold(s)
    ensures ClaimsHold(ApplyRunEvent(cfg, s, now, event))
  {
    assert Sound(s, event.itemId);
  }

  lemma OperationKeepsClaimsExactly(cfg: Config, deps: Deps, s: State, op: Operation)
    requires Inv(cfg, s) && Environment(deps) && ClaimsHold(s)
    ensures ClaimsHold(Apply(cfg, deps, s, op)) <==> Fits(cfg, deps, s, op)
  {
    match op
    case Quiet(_) =>
    case Stalls(now) => StallsKeepClaims(cfg, deps, s, now);
    case Refreshes => RefreshKeepsClaims(cfg, deps, s);
    case Candidate(now, item) => CandidateKeepsClaimsExactly(cfg, deps, s, now, item);
    case TakeRetry(now, id, nonce) => RetryKeepsClaims(cfg, deps, s, now, id, nonce);
    case Arrives(now, event) => EventKeepsClaims(cfg, s, now, event);
  }

  // ----- every run -----

  ghost predicate ClaimsThroughout(cfg: Config, deps: Deps, s: State, ops: seq<Operation>)
    requires WellOrdered(deps)
    decreases |ops|
  {
    ClaimsHold(s) && (ops != [] ==> ClaimsThroughout(cfg, deps, Apply(cfg, deps, s, ops[0]), ops[1..]))
  }

  ghost predicate NoneRefused(cfg: Config, deps: Deps, s: State, ops: seq<Operation>)
    requires WellOrdered(deps)
    decreases |ops|
  {
    ops != [] ==> Fits(cfg, deps, s, ops[0]) && NoneRefused(cfg, deps, Apply(cfg, deps, s, ops[0]), ops[1..])
  }

  lemma {:induction false} ClaimsAlong(cfg: Config, deps: Deps, s: State, ops: seq<Operation>)
    requires Inv(cfg, s) && Environment(deps) && ClaimsHold(s)
    ensures ClaimsThroughout(cfg, deps, s, ops) <==> NoneRefused(cfg, deps, s, ops)
    decreases |ops|
  {
    if ops != [] {
      var next := Apply(cfg, deps, s, ops[0]);
      OperationKeepsClaimsExactly(cfg, deps, s, ops[0]);
      ApplySound(cfg, deps, s, ops[0]);
      if ClaimsHold(next) {
        ClaimsAlong(cfg, deps, next, ops[1..]);
      }
    }
  }

  /** In every run the queued retries stay claimed throughout exactly when no candidate is refused by startRun. */
  lemma ClaimsHoldExactly(cfg: Config, deps: Deps, start: int, inputs: seq<Input>)
    requires Environment(deps)
    ensures var sv := NewService(start); var ops := RunTrail(cfg, deps, sv, inputs);
            ClaimsThroughout(cfg, deps, sv.state, ops) <==> NoneRefused(cfg, deps, sv.state, ops)
  {
    NewServiceSound(cfg, start);
    ClaimsAlong(cfg, deps, NewService(start).state, RunTrail(cfg, deps, NewService(start), inputs));
  }
}
