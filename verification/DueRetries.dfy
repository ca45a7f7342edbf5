/**
 What becomes of a retry whose timer fires while its nonce is current, said of the tracker's answer alone: an
 item no longer there, done, or no longer dispatchable is released, and stopped with or without cleanup; one
 that cannot be asked about or placed is queued again; one that can starts, on its host where that has room.
 */
module DueRetries {
  import opened Text
  import opened Domain
  import opened Scheduler
  import opened Safety
  import opened Reconciliation
  import opened Eligibility
  import Hosts
  import HostCapacity

  /** The retry is queued under the nonce that fires. */
  ghost predicate IsDue(cfg: Config, s: State, id: string, nonce: nat) {
    Inv(cfg, s) && id in s.retrying && s.retrying[id].nonce == nonce
  }

  /** The tracker's answer about the item. */
  predicate Answers(deps: Deps, s: State, id: string, items: seq<WorkItem>) {
    deps.refresh.Some? && deps.refresh.value(s.calls, [id]) == Ok(items)
  }

  predicate IsTerminal(cfg: Config, item: WorkItem) {
    cfg.lower(Trim(item.state)) in cfg.terminalStates
  }

  /** Claim and retry are gone and the item does not run; all other items are as they were. */
  ghost predicate Released(s: State, t: State, id: string) {
    && id !in t.running && id !in t.claimed && id !in t.retrying
    && t.running == s.running && t.claimed == s.claimed - {id} && t.retrying == s.retrying - {id}
  }

  /** The stopRun calls made in between: these for the item, and none for any other. */
  ghost predicate Stops(s: State, t: State, id: string, calls: seq<Action>) {
    && StopsFor(t.log, id) == StopsFor(s.log, id) + calls
    && forall other :: other != id ==> StopsFor(t.log, other) == StopsFor(s.log, other)
  }

  /** Queued for one attempt more, with its claim, host and path kept, after the backoff of that attempt. */
  ghost predicate QueuedAgain(cfg: Config, s: State, t: State, now: int, id: string, identifier: string, cause: Cause) {
    && id in s.retrying && t.running == s.running && t.claimed == s.claimed && t.retrying.Keys == s.retrying.Keys
    && (forall other :: other in s.retrying && other != id ==> t.retrying[other] == s.retrying[other])
    && var entry := s.retrying[id];
       t.retrying[id] == Retry(id, identifier, entry.attempt + 1,
                               now + Scheduler.Backoff.FailureRetryDelay(entry.attempt + 1, cfg.maxRetryBackoff),
                               cause, entry.workerHost, entry.workspacePath, s.retryNonce + 1)
  }

  lemma NoStop(log: seq<Action>, action: Action, id: string)
    requires !action.StopCalled?
    ensures StopsFor(log + [action], id) == StopsFor(log, id)
  {
    StopsForSnoc(log, action);
    assert StopsFor(log, id) + [] == StopsFor(log, id);
  }

  /** A release, and then a stop. */
  lemma ReleaseStops(s: State, id: string, nonce: nat, stop: Action)
    requires stop.StopCalled? && stop.id == id
    ensures forall other :: StopsFor(s.log + [Consumed(id, nonce)] + [Dropped(id)], other) == StopsFor(s.log, other)
    ensures forall other ::
              StopsFor(s.log + [Consumed(id, nonce)] + [Dropped(id)] + [stop], other)
              == StopsFor(s.log, other) + (if other == id then [stop] else [])
  {
    var taken := s.log + [Consumed(id, nonce)];
    forall other ensures StopsFor(taken + [Dropped(id)], other) == StopsFor(s.log, other) {
      NoStop(s.log, Consumed(id, nonce), other);
      NoStop(taken, Dropped(id), other);
    }
    StopsForSnoc(taken + [Dropped(id)], stop);
  }

  // ----- released -----

  /** Done: released, and its workspace is cleaned up by one stop without a handle. */
  lemma TerminalIsCleanedUp(
    cfg: Config, deps: Deps, s: State, now: int, id: string, nonce: nat, items: seq<WorkItem>)
    requires IsDue(cfg, s, id, nonce) && Answers(deps, s, id, items) && items != [] && IsTerminal(cfg, items[0])
    ensures var t := HandleDueRetry(cfg, deps, s, now, id, nonce);
            Released(s, t, id) && Stops(s, t, id, [StopCalled(id, s.retrying[id].identifier, None, true)])
  {
    assert Sound(s, id);
    var stop := StopCalled(id, s.retrying[id].identifier, None, true);
    ReleaseStops(s, id, nonce, stop);
    assert HandleDueRetry(cfg, deps, s, now, id, nonce).log == s.log + [Consumed(id, nonce)] + [Dropped(id)] + [stop];
  }

  /** Neither done nor dispatchable: released, and stopped once without cleanup and without a handle. */
  lemma IneligibleIsStopped(
    cfg: Config, deps: Deps, s: State, now: int, id: string, nonce: nat, items: seq<WorkItem>)
    requires IsDue(cfg, s, id, nonce) && Answers(deps, s, id, items)
    requires items != [] && !IsTerminal(cfg, items[0]) && !Dispatchable(cfg, items[0])
    ensures var t := HandleDueRetry(cfg, deps, s, now, id, nonce);
            Released(s, t, id) && Stops(s, t, id, [StopCalled(id, s.retrying[id].identifier, None, false)])
  {
    assert Sound(s, id);
    CandidateIsDispatchable(cfg, items[0]);
    var stop := StopCalled(id, s.retrying[id].identifier, None, false);
    ReleaseStops(s, id, nonce, stop);
    assert HandleDueRetry(cfg, deps, s, now, id, nonce).log == s.log + [Consumed(id, nonce)] + [Dropped(id)] + [stop];
  }

  /** No longer there: released, and nothing is stopped. */
  lemma MissingIsReleased(cfg: Config, deps: Deps, s: State, now: int, id: string, nonce: nat)
    requires IsDue(cfg, s, id, nonce) && Answers(deps, s, id, [])
    ensures var t := HandleDueRetry(cfg, deps, s, now, id, nonce); Released(s, t, id) && Stops(s, t, id, [])
  {
    assert Sound(s, id);
    ReleaseStops(s, id, nonce, StopCalled(id, "", None, false));
    assert HandleDueRetry(cfg, deps, s, now, id, nonce).log == s.log + [Consumed(id, nonce)] + [Dropped(id)];
    assert StopsFor(s.log, id) + [] == StopsFor(s.log, id);
  }

  // ----- queued again -----

  /** A history that took the retry and queued the item again stopped nothing. */
  lemma QueueStopsNothing(s: State, t: State, id: string, nonce: nat, queued: Action)
    requires queued.Queued? && t.log == s.log + [Consumed(id, nonce)] + [queued]
    ensures Stops(s, t, id, [])
  {
    forall other ensures StopsFor(t.log, other) == StopsFor(s.log, other) {
      NoStop(s.log, Consumed(id, nonce), other);
      NoStop(s.log + [Consumed(id, nonce)], queued, other);
    }
    assert StopsFor(s.log, id) + [] == StopsFor(s.log, id);
  }

  /** What Requeue makes of a retry that has been taken. */
  lemma TakenQueuedAgain(
    cfg: Config, s: State, taken: State, now: int, id: string, nonce: nat, identifier: string, cause: Cause)
    requires IsDue(cfg, s, id, nonce) && Unmoved(Consume(s, id, nonce), taken)
    ensures var t := Requeue(cfg, taken, now, id, s.retrying[id], identifier, cause);
            QueuedAgain(cfg, s, t, now, id, identifier, cause) && Stops(s, t, id, [])
  {
    assert Sound(s, id);
    var entry := s.retrying[id];
    var queued := Queued(id, entry.attempt + 1, s.retryNonce + 1, cause);
    QueueStopsNothing(s, Requeue(cfg, taken, now, id, entry, identifier, cause), id, nonce, queued);
  }

  /** The tracker cannot be asked, or answers with an error: queued again, nothing released or stopped. */
  lemma UnknownIsQueuedAgain(cfg: Config, deps: Deps, s: State, now: int, id: string, nonce: nat)
    requires IsDue(cfg, s, id, nonce) && (deps.refresh.None? || deps.refresh.value(s.calls, [id]).Err?)
    ensures var t := HandleDueRetry(cfg, deps, s, now, id, nonce);
            QueuedAgain(cfg, s, t, now, id, s.retrying[id].identifier, RefreshFailed) && Stops(s, t, id, [])
  {
    var taken := Consume(s, id, nonce);
    var asked := if deps.refresh.None? then taken else taken.(calls := taken.calls + 1);
    TakenQueuedAgain(cfg, s, asked, now, id, nonce, s.retrying[id].identifier, RefreshFailed);
  }

  /** The state in which a dispatchable item's retry is decided. */
  function Asked(s: State, id: string, nonce: nat): State {
    Consume(s, id, nonce).(calls := s.calls + 1)
  }

  lemma ShownReady(cfg: Config, deps: Deps, s: State, taken: State, id: string, items: seq<WorkItem>)
    requires Answers(deps, s, id, items) && items != [] && Dispatchable(cfg, items[0]) && taken.calls == s.calls
    ensures RefreshRetryItem(cfg, deps, taken, id) == (taken.(calls := s.calls + 1), Ready(items[0]))
  {
    CandidateIsDispatchable(cfg, items[0]);
  }

  /** A dispatchable item's retry comes down to a dispatch of the item as it is shown. */
  lemma DecidedByRoom(
    cfg: Config, deps: Deps, s: State, now: int, id: string, nonce: nat, items: seq<WorkItem>)
    requires id in s.retrying && s.retrying[id].nonce == nonce
    requires Answers(deps, s, id, items) && items != [] && Dispatchable(cfg, items[0])
    ensures HandleDueRetry(cfg, deps, s, now, id, nonce)
            == Redispatch(cfg, deps, Asked(s, id, nonce), now, id, s.retrying[id], items[0])
  {
    ShownReady(cfg, deps, s, Consume(s, id, nonce), id, items);
    SettledAs(cfg, deps, s, now, id, nonce, Asked(s, id, nonce), Ready(items[0]));
  }

  lemma SettledAs(
    cfg: Config, deps: Deps, s: State, now: int, id: string, nonce: nat, asked: State, status: RetryStatus)
    requires id in s.retrying && s.retrying[id].nonce == nonce
    requires RefreshRetryItem(cfg, deps, Consume(s, id, nonce), id) == (asked, status)
    ensures HandleDueRetry(cfg, deps, s, now, id, nonce) == Settle(cfg, deps, asked, now, id, s.retrying[id], status)
  {
  }

  /** Dispatchable, but there is no room: queued again, under the identifier the tracker shows. */
  lemma CrowdedIsQueuedAgain(
    cfg: Config, deps: Deps, s: State, now: int, id: string, nonce: nat, items: seq<WorkItem>)
    requires IsDue(cfg, s, id, nonce) && Answers(deps, s, id, items)
    requires items != [] && Dispatchable(cfg, items[0]) && !HasRoom(cfg, s, items[0])
    ensures var t := HandleDueRetry(cfg, deps, s, now, id, nonce);
            QueuedAgain(cfg, s, t, now, id, items[0].identifier, NoSlots) && Stops(s, t, id, [])
  {
    DecidedByRoom(cfg, deps, s, now, id, nonce, items);
    RoomExactly(cfg, Asked(s, id, nonce), items[0]);
    TakenQueuedAgain(cfg, s, Asked(s, id, nonce), now, id, nonce, items[0].identifier, NoSlots);
  }

  /** Dispatchable and room, but no host: queued again in the same way. */
  lemma HomelessIsQueuedAgain(
    cfg: Config, deps: Deps, s: State, now: int, id: string, nonce: nat, items: seq<WorkItem>)
    requires IsDue(cfg, s, id, nonce) && Answers(deps, s, id, items)
    requires items != [] && Dispatchable(cfg, items[0]) && HasRoom(cfg, s, items[0])
    requires AdmitHost(deps, Asked(s, id, nonce), s.retrying[id].workerHost).1.None?
    ensures var t := HandleDueRetry(cfg, deps, s, now, id, nonce);
            QueuedAgain(cfg, s, t, now, id, items[0].identifier, NoSlots) && Stops(s, t, id, [])
  {
    DecidedByRoom(cfg, deps, s, now, id, nonce, items);
    RoomExactly(cfg, Asked(s, id, nonce), items[0]);
    var admitted := AdmitHost(deps, Asked(s, id, nonce), s.retrying[id].workerHost).0;
    TakenQueuedAgain(cfg, s, admitted, now, id, nonce, items[0].identifier, NoSlots);
  }

  // ----- started again -----

  /** Dispatchable, with room and a host: startRun is asked for the attempt that was queued, and decides. */
  lemma ReadyIsStarted(
    cfg: Config, deps: Deps, s: State, now: int, id: string, nonce: nat, items: seq<WorkItem>, host: string)
    requires IsDue(cfg, s, id, nonce) && Answers(deps, s, id, items)
    requires items != [] && items[0].id == id && Dispatchable(cfg, items[0]) && HasRoom(cfg, s, items[0])
    requires deps.start.Some?
    requires AdmitHost(deps, Asked(s, id, nonce), s.retrying[id].workerHost).1 == Some(host)
    ensures var asked := Asked(s, id, nonce);
            var attempt := s.retrying[id].attempt;
            var answer := deps.start.value(AdmitHost(deps, asked, s.retrying[id].workerHost).0.calls,
                                           StartRequest(items[0], attempt, host));
            Answered(cfg, asked, HandleDueRetry(cfg, deps, s, now, id, nonce), answer.Ok?, answer, items[0], attempt, now, host)
  {
    DecidedByRoom(cfg, deps, s, now, id, nonce, items);
    RoomExactly(cfg, Asked(s, id, nonce), items[0]);
    DispatchExactly(cfg, deps, Asked(s, id, nonce), now, items[0], s.retrying[id].attempt, s.retrying[id].workerHost, host);
  }

  /** A retry goes back to the host it ran on, where that is configured and has room. */
  lemma ReturnsToItsHost(deps: Deps, s: State, preferred: string)
    requires deps.hosts.Some? && Trim(preferred) != "" && Trim(preferred) in Hosts.Configured(deps.hosts.value.hosts)
    requires deps.hosts.value.maxPerHost.Some? ==>
               |OnHost(s.running, Trim(preferred))| < deps.hosts.value.maxPerHost.value
    ensures AdmitHost(deps, s, preferred) == (s, Some(Trim(preferred)))
  {
    HostCapacity.HostCountIsTrue(s.running, Trim(preferred));
  }
}
