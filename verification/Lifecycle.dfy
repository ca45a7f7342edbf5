/**
 The life of one work item as an automaton over the scheduler's history, independent of the
 scheduler's maps. A history that breaks the protocol ends in `Bad`.
 */
module Lifecycle {
  import opened Domain
  import opened Scheduler

  datatype Phase =
    | Idle
    | Running(attempt: int, reported: Totals, handle: Option<nat>)   // with its run's last report and handle
    | Stopped(attempt: int)                              // stopped for a stall, retry not yet queued
    | Dropping(handle: Option<nat>)                      // taken out of running, stop not yet called
    | Waiting(attempt: int, claimed: bool, nonce: nat)   // queued, its timer not yet taken
    | Due(attempt: int, claimed: bool)                   // its timer taken, not yet decided
    | Failing(attempt: int, claimed: bool)               // startRun refused, retry not yet queued
    | Bad

  /** The attempt a start may carry, or None where no start is allowed. */
  predicate MayStart(phase: Phase, attempt: int) {
    match phase
    case Idle => attempt == 0
    case Waiting(_, claimed, _) => !claimed && attempt == 0
    case Due(due, _) => attempt == due
    case _ => false
  }

  predicate HasClaim(phase: Phase) {
    match phase
    case Running(_, _, _) => true
    case Stopped(_) => true
    case Waiting(_, claimed, _) => claimed
    case Due(_, claimed) => claimed
    case Failing(_, claimed) => claimed
    case _ => false
  }

  predicate MayQueue(phase: Phase, attempt: int, cause: Cause) {
    match phase
    case Running(r, _, _) =>
      (cause.Completed? && attempt == 1) || (cause.WorkerFailed? && attempt == NextFailureAttempt(r))
    case Stopped(r) => cause.Stalled? && attempt == NextFailureAttempt(r)
    case Due(due, _) => (cause.RefreshFailed? || cause.NoSlots?) && attempt == due + 1
    case Failing(a, _) => cause.StartFailed? && attempt == NextFailureAttempt(a)
    case _ => false
  }

  function Next(phase: Phase, action: Action, id: string): Phase {
    if action.id != id then phase
    else
      match action
      case Started(_, attempt, _, ok, handle) =>
        if !MayStart(phase, attempt) then Bad
        else if ok then Running(attempt, NO_TOTALS, handle) else Failing(attempt, HasClaim(phase))
      case Queued(_, attempt, nonce, cause) =>
        if MayQueue(phase, attempt, cause) then Waiting(attempt, HasClaim(phase), nonce) else Bad
      case Consumed(_, nonce) =>
        if phase.Waiting? && phase.nonce == nonce then Due(phase.attempt, phase.claimed) else Bad
      case Dropped(_) => if phase.Running? then Dropping(phase.handle) else if phase.Due? then Idle else Bad
      case StopCalled(_, _, handle, _) =>
        if phase.Running? && phase.handle == handle then Stopped(phase.attempt)
        else if phase.Dropping? && phase.handle == handle then Idle
        else if phase.Idle? && handle.None? then Idle
        else Bad
      case Reported(_, totals) => if phase.Running? then phase.(reported := totals) else Bad
  }

  function PhaseOf(log: seq<Action>, id: string): Phase {
    if log == [] then Idle else Next(PhaseOf(log[..|log| - 1], id), log[|log| - 1], id)
  }

  lemma PhaseSnoc(log: seq<Action>, action: Action)
    ensures forall id :: PhaseOf(log + [action], id) == Next(PhaseOf(log, id), action, id)
  {
    assert (log + [action])[..|log|] == log;
  }

  /** The tokens a history accounts for: each report adds what it exceeds its run's previous report by. */
  function Tally(log: seq<Action>): Totals {
    if log == [] then NO_TOTALS
    else
      var before, last := log[..|log| - 1], log[|log| - 1];
      if last.Reported? && PhaseOf(before, last.id).Running?
      then AddIncrease(Tally(before), PhaseOf(before, last.id).reported, last.totals)
      else Tally(before)
  }

  lemma TallySnoc(log: seq<Action>, action: Action)
    ensures Tally(log + [action]) ==
              if action.Reported? && PhaseOf(log, action.id).Running?
              then AddIncrease(Tally(log), PhaseOf(log, action.id).reported, action.totals)
              else Tally(log)
  {
    assert (log + [action])[..|log|] == log;
  }

  lemma {:induction false} BadForever(log: seq<Action>, more: nat, id: string)
    requires more <= |log| && PhaseOf(log[..more], id).Bad?
    ensures PhaseOf(log, id).Bad?
    decreases |log|
  {
    if more < |log| {
      assert log[..|log| - 1][..more] == log[..more];
      BadForever(log[..|log| - 1], more, id);
    } else {
      assert log[..more] == log;
    }
  }

  // ----- what the automaton promises about histories it accepts -----

  predicate IsStart(action: Action, id: string) {
    action.Started? && action.ok && action.id == id
  }

  /** The actions by which an item leaves `running`: a retry is queued for it, or it is dropped. */
  predicate IsLeave(action: Action, id: string) {
    (action.Queued? || action.Dropped?) && action.id == id
  }

  lemma {:induction false} RunningUntilLeave(log: seq<Action>, i: nat, id: string)
    requires i < |log| && IsStart(log[i], id) && !PhaseOf(log, id).Bad?
    requires forall k :: i < k < |log| ==> !IsLeave(log[k], id)
    ensures PhaseOf(log, id).Running? || PhaseOf(log, id).Stopped?
    decreases |log|
  {
    var before := log[..|log| - 1];
    if i < |log| - 1 {
      RunningUntilLeave(before, i, id);
    }
  }

  /** An item that is not running stays so until a start of it succeeds. */
  lemma {:induction false} IdleUntilStart(log: seq<Action>, n: nat, id: string)
    requires n <= |log| && !PhaseOf(log[..n], id).Running?
    requires forall k :: n <= k < |log| ==> !IsStart(log[k], id)
    ensures !PhaseOf(log, id).Running?
    decreases |log|
  {
    if n < |log| {
      assert log[..|log| - 1][..n] == log[..n];
      IdleUntilStart(log[..|log| - 1], n, id);
    } else {
      assert log[..n] == log;
    }
  }

  /** Two starts of one item that both succeed always have the item leaving `running` in between. */
  lemma {:induction false} StartsAreSeparated(log: seq<Action>, i: nat, j: nat, id: string)
    requires i < j < |log| && IsStart(log[i], id) && IsStart(log[j], id) && !PhaseOf(log, id).Bad?
    ensures exists k :: i < k < j && IsLeave(log[k], id)
  {
    if forall k :: i < k < j ==> !IsLeave(log[k], id) {
      assert log[..j + 1][..j] == log[..j];
      if PhaseOf(log[..j], id).Bad? {
        BadForever(log, j, id);
      }
      RunningUntilLeave(log[..j], i, id);
      assert PhaseOf(log[..j + 1], id).Bad?;
      BadForever(log, j + 1, id);
    }
  }

  /** Each retry nonce queued for an item is taken at most once, as long as queueing never repeats a nonce. */
  predicate NoncesRise(log: seq<Action>) {
    forall i, j :: 0 <= i < j < |log| && log[i].Queued? && log[j].Queued? ==> log[i].nonce < log[j].nonce
  }

  lemma {:induction false} QueuedBeforeWaiting(log: seq<Action>, id: string) returns (q: nat)
    requires PhaseOf(log, id).Waiting?
    ensures q < |log| && log[q].Queued? && log[q].id == id && log[q].nonce == PhaseOf(log, id).nonce
    ensures forall k :: q < k < |log| ==> !(log[k].Consumed? && log[k].id == id)
    decreases |log|
  {
    var last := log[|log| - 1];
    if last.Queued? && last.id == id {
      q := |log| - 1;
    } else {
      q := QueuedBeforeWaiting(log[..|log| - 1], id);
    }
  }

  /** The queueing behind a consumption: its nonce was queued for the item and not taken since. */
  lemma QueuedBehind(log: seq<Action>, i: nat) returns (q: nat)
    requires i < |log| && log[i].Consumed? && !PhaseOf(log, log[i].id).Bad?
    ensures q < i && log[q].Queued? && log[q].id == log[i].id && log[q].nonce == log[i].nonce
    ensures forall k :: q < k < i ==> !(log[k].Consumed? && log[k].id == log[i].id)
  {
    var id, before := log[i].id, log[..i];
    assert log[..i + 1][..i] == before;
    if !PhaseOf(before, id).Waiting? || PhaseOf(before, id).nonce != log[i].nonce {
      BadForever(log, i + 1, id);
    }
    q := QueuedBeforeWaiting(before, id);
    assert forall k :: q < k < i ==> before[k] == log[k];
  }

  /** No nonce is taken twice, by one item or by two. */
  lemma {:induction false} ConsumedOnce(log: seq<Action>, i: nat, j: nat)
    requires NoncesRise(log) && i < j < |log| && log[i].Consumed? && log[j].Consumed?
    requires !PhaseOf(log, log[i].id).Bad? && !PhaseOf(log, log[j].id).Bad?
    ensures log[i].nonce != log[j].nonce
  {
    var p := QueuedBehind(log, i);
    var q := QueuedBehind(log, j);
    assert p != q;
  }

  // ----- starts of queued items -----

  /** Queued, and its timer neither taken nor overtaken by a start, an item waits as it was queued. */
  lemma {:induction false} WaitsAsQueued(log: seq<Action>, q: nat, m: nat, id: string)
    requires q < m <= |log| && log[q].Queued? && log[q].id == id && !PhaseOf(log[..m], id).Bad?
    requires forall k :: q < k < m && log[k].id == id ==>
               !(log[k].Consumed? && log[k].nonce == log[q].nonce)
               && (log[k].Started? ==> HasClaim(PhaseOf(log[..q + 1], id)))
    ensures PhaseOf(log[..m], id) == PhaseOf(log[..q + 1], id)
    ensures PhaseOf(log[..m], id).Waiting? && PhaseOf(log[..m], id).nonce == log[q].nonce
    decreases m
  {
    assert log[..m][..m - 1] == log[..m - 1];
    if m > q + 1 {
      if PhaseOf(log[..m - 1], id).Bad? { BadForever(log[..m], m - 1, id); }
      WaitsAsQueued(log, q, m - 1, id);
    }
  }

  /** The first start after a queueing whose nonce has not been taken is of an unclaimed item, at attempt 0. */
  lemma EarlyStartIsFresh(log: seq<Action>, q: nat, i: nat, id: string)
    requires q < i < |log| && log[q].Queued? && log[i].Started? && log[q].id == log[i].id == id
    requires !PhaseOf(log, id).Bad?
    requires forall k :: q < k < i && log[k].id == id ==>
               !log[k].Started? && !(log[k].Consumed? && log[k].nonce == log[q].nonce)
    ensures !HasClaim(PhaseOf(log[..i], id)) && log[i].attempt == 0
  {
    assert log[..i + 1][..i] == log[..i];
    if PhaseOf(log[..i + 1], id).Bad? { BadForever(log, i + 1, id); }
    WaitsAsQueued(log, q, i, id);
  }

  /** startRun refused the first attempt at an item. */
  predicate IsFreshRefusal(action: Action, id: string) {
    action.Started? && !action.ok && action.attempt == 0 && action.id == id
  }

  /** Queued, due or refused, and not claimed. */
  predicate Loose(phase: Phase) {
    (phase.Waiting? || phase.Due? || phase.Failing?) && !phase.claimed
  }

  /** An item is loose only after such a refusal. */
  lemma {:induction false} LooseAfterRefusal(log: seq<Action>, id: string)
    requires forall k :: 0 <= k < |log| ==> !IsFreshRefusal(log[k], id)
    ensures !Loose(PhaseOf(log, id))
    decreases |log|
  {
    if log != [] {
      LooseAfterRefusal(log[..|log| - 1], id);
    }
  }

  /** Where no first attempt at it has been refused, a queued item starts only after its nonce has been taken. */
  lemma TakenBeforeStart(log: seq<Action>, q: nat, i: nat, id: string)
    requires q < i < |log| && log[q].Queued? && log[i].Started? && log[q].id == log[i].id == id
    requires !PhaseOf(log, id).Bad? && forall k :: 0 <= k < |log| ==> !IsFreshRefusal(log[k], id)
    ensures exists k :: q < k < i && log[k].Consumed? && log[k].id == id && log[k].nonce == log[q].nonce
  {
    assert log[..q + 1][..q] == log[..q] && log[..i + 1][..i] == log[..i];
    if PhaseOf(log[..i + 1], id).Bad? { BadForever(log, i + 1, id); }
    if PhaseOf(log[..q + 1], id).Bad? { BadForever(log, q + 1, id); }
    LooseAfterRefusal(log[..q + 1], id);
    if forall k :: q < k < i && log[k].id == id ==> !(log[k].Consumed? && log[k].nonce == log[q].nonce) {
      WaitsAsQueued(log, q, i, id);
    }
  }

  // ----- attempts -----

  /** The attempt the phase stands at. */
  function AttemptOf(phase: Phase): int {
    if phase.Idle? || phase.Bad? || phase.Dropping? then 0 else phase.attempt
  }

  /** A step that restarts the count: a completed run, or a release. */
  predicate Resets(action: Action, id: string) {
    action.id == id && (action.Dropped? || (action.Queued? && action.cause.Completed?))
  }

  lemma {:induction false} ClaimLasts(log: seq<Action>, i: nat, id: string)
    requires i <= |log| && HasClaim(PhaseOf(log[..i], id)) && !PhaseOf(log, id).Bad?
    requires AttemptOf(PhaseOf(log[..i], id)) >= 0
    requires forall k :: i <= k < |log| ==> !Resets(log[k], id)
    ensures HasClaim(PhaseOf(log, id)) && AttemptOf(PhaseOf(log, id)) >= AttemptOf(PhaseOf(log[..i], id))
    ensures forall k :: i <= k < |log| && log[k].Queued? && log[k].id == id ==>
              AttemptOf(PhaseOf(log[..i], id)) < log[k].attempt <= AttemptOf(PhaseOf(log, id))
    decreases |log|
  {
    if i < |log| {
      var before := log[..|log| - 1];
      assert before[..i] == log[..i];
      ClaimLasts(before, i, id);
      assert forall k :: i <= k < |before| ==> before[k] == log[k];
    } else {
      assert log[..i] == log;
    }
  }

  /** While an item keeps its claim, every retry queued for it carries a larger attempt than the one before. */
  lemma {:induction false} AttemptsRise(log: seq<Action>, i: nat, j: nat, id: string)
    requires i < j < |log| && !PhaseOf(log, id).Bad?
    requires log[i].Queued? && log[j].Queued? && log[i].id == log[j].id == id
    requires HasClaim(PhaseOf(log[..i + 1], id)) && log[i].attempt >= 0
    requires forall k :: i < k <= j ==> !Resets(log[k], id)
    ensures log[i].attempt < log[j].attempt
  {
    var upTo := log[..j + 1];
    if PhaseOf(upTo, id).Bad? { BadForever(log, j + 1, id); }
    assert upTo[..i + 1] == log[..i + 1];
    assert log[..i + 1][..i] == log[..i];
    ClaimLasts(upTo, i + 1, id);
    assert upTo[j] == log[j];
  }
}
