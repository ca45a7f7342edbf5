/** The service's timers and nonces: what every step keeps, and what that means over whole runs. */
module ServiceSafety {
  import opened Domain
  import opened Scheduler
  import opened Lifecycle
  import opened Safety
  import opened Frames
  import opened Service

  function PollNonceOf(call: Callback): Option<nat> {
    match call
    case Tick(nonce) => Some(nonce)
    case Cycle(nonce) => Some(nonce)
    case RetryTick(_, _) => None
  }

  /** Timer numbers are never reused, and the two poll slots hold poll timers. */
  ghost predicate TimersSound(sv: ServiceState) {
    && (forall t :: t in sv.timers ==> t < sv.issued)
    && (sv.pollTimer.Some? ==> sv.pollTimer.value < sv.issued)
    && (sv.cycleTimer.Some? ==> sv.cycleTimer.value < sv.issued)
    && (sv.pollTimer.Some? && sv.pollTimer.value in sv.timers ==> sv.timers[sv.pollTimer.value].call.Tick?)
    && (sv.cycleTimer.Some? && sv.cycleTimer.value in sv.timers ==> sv.timers[sv.cycleTimer.value].call.Cycle?)
  }

  /** Of all pending callbacks at most one carries the current poll nonce, and it sits in `slot`. */
  ghost predicate OnlyCurrent(sv: ServiceState, slot: Option<nat>) {
    forall t :: t in sv.timers && PollNonceOf(sv.timers[t].call).Some? ==>
      PollNonceOf(sv.timers[t].call).value <= sv.state.pollNonce
      && (PollNonceOf(sv.timers[t].call).value == sv.state.pollNonce ==> slot == Some(t))
  }

  /** A tick due at nextPollAt while idle, a cycle and no next poll while checking. */
  ghost predicate PollSound(sv: ServiceState) {
    if sv.state.checking then
      && OnlyCurrent(sv, sv.cycleTimer)
      && sv.cycleTimer.Some? && sv.cycleTimer.value in sv.timers
      && sv.timers[sv.cycleTimer.value].call == Cycle(sv.state.pollNonce)
      && sv.state.nextPollAt.None?
    else
      && OnlyCurrent(sv, sv.pollTimer)
      && sv.pollTimer.Some? && sv.pollTimer.value in sv.timers
      && sv.timers[sv.pollTimer.value].call == Tick(sv.state.pollNonce)
      && sv.state.nextPollAt == Some(sv.timers[sv.pollTimer.value].due)
  }

  /** When a timer armed at a given time for a given due time fires: then, or at once where that has passed. */
  function Later(armed: int, dueAt: int): int {
    if dueAt < armed then armed else dueAt
  }

  /** Every registered retry timer is pending with the registered callback, and fires when its retry is due. */
  ghost predicate Registered(sv: ServiceState) {
    forall id :: id in sv.retryTimers ==>
      sv.retryTimers[id].timer in sv.timers
      && sv.timers[sv.retryTimers[id].timer].call == RetryTick(id, sv.retryTimers[id].nonce)
      && (Current(sv, id) ==>
            var timer := sv.timers[sv.retryTimers[id].timer];
            timer.due == Later(timer.armed, sv.state.retrying[id].dueAt))
  }

  /** A pending retry callback that is still current is the registered one; the counter bounds them all. */
  ghost predicate NoStray(sv: ServiceState, bound: nat) {
    forall t :: t in sv.timers && sv.timers[t].call.RetryTick? ==>
      var call := sv.timers[t].call;
      call.nonce <= bound
      && (call.id in sv.state.retrying && sv.state.retrying[call.id].nonce == call.nonce ==>
            call.id in sv.retryTimers && sv.retryTimers[call.id] == Scheduled(call.nonce, t))
  }

  ghost predicate RetrySound(sv: ServiceState) {
    && Registered(sv)
    && NoStray(sv, sv.state.retryNonce)
    && (forall id :: id in sv.retryTimers <==> id in sv.state.retrying)
    && (forall id :: id in sv.state.retrying ==> sv.retryTimers[id].nonce == sv.state.retrying[id].nonce)
  }

  ghost predicate ServiceInv(cfg: Config, sv: ServiceState) {
    && Inv(cfg, sv.state)
    && (!sv.closed ==> TimersSound(sv) && PollSound(sv) && RetrySound(sv))
  }

  /** The contracts the dependencies are assumed to meet. */
  ghost predicate Environment(deps: Deps) {
    WellOrdered(deps) && EchoesId(deps)
  }

  // ----- synchronising retry timers -----

  /** Everything but retry timers is as it was; new timers are retry timers with fresh numbers. */
  ghost predicate SamePolling(sv: ServiceState, tv: ServiceState) {
    && tv.closed == sv.closed && tv.pollTimer == sv.pollTimer && tv.cycleTimer == sv.cycleTimer
    && tv.issued >= sv.issued
    && tv.state.pollNonce == sv.state.pollNonce && tv.state.checking == sv.state.checking
    && tv.state.nextPollAt == sv.state.nextPollAt
    && (forall t :: t in tv.timers ==>
          (t in sv.timers && tv.timers[t] == sv.timers[t])
          || (sv.issued <= t < tv.issued && tv.timers[t].call.RetryTick?))
    && (forall t :: t in sv.timers && !sv.timers[t].call.RetryTick? ==> t in tv.timers && tv.timers[t] == sv.timers[t])
  }

  lemma SamePollingKeeps(sv: ServiceState, tv: ServiceState)
    requires SamePolling(sv, tv) && TimersSound(sv)
    ensures TimersSound(tv)
    ensures PollSound(sv) ==> PollSound(tv)
  {
  }

  lemma SamePollingTransitive(sv: ServiceState, tv: ServiceState, uv: ServiceState)
    requires SamePolling(sv, tv) && SamePolling(tv, uv)
    ensures SamePolling(sv, uv)
  {
  }

  /** The same callback armed for the same time, expired or not. */
  predicate SameAlarm(a: Timer, b: Timer) {
    a.call == b.call && a.armed == b.armed && a.due == b.due
  }

  /** The same retries are queued and registered, and the same retry callbacks are pending. */
  ghost predicate SameRetries(sv: ServiceState, tv: ServiceState) {
    && tv.state.retrying == sv.state.retrying && tv.state.retryNonce == sv.state.retryNonce
    && tv.retryTimers == sv.retryTimers
    && (forall t :: t in tv.timers && tv.timers[t].call.RetryTick? ==> t in sv.timers && SameAlarm(sv.timers[t], tv.timers[t]))
    && (forall t :: t in sv.timers && sv.timers[t].call.RetryTick? ==> t in tv.timers && SameAlarm(sv.timers[t], tv.timers[t]))
  }

  lemma SameRetriesKeeps(sv: ServiceState, tv: ServiceState)
    requires SameRetries(sv, tv) && RetrySound(sv)
    ensures RetrySound(tv)
  {
  }

  /** Before the timers are synchronised: registrations are real and no current callback is unregistered. */
  ghost predicate HalfSound(sv: ServiceState) {
    TimersSound(sv) && Registered(sv) && NoStray(sv, sv.state.retryNonce)
  }

  predicate Current(sv: ServiceState, id: string) {
    id in sv.retryTimers && id in sv.state.retrying && sv.retryTimers[id].nonce == sv.state.retrying[id].nonce
  }

  function DropOne(sv: ServiceState, id: string): ServiceState
    requires id in sv.retryTimers
  {
    if Current(sv, id) then sv
    else Stop(sv, sv.retryTimers[id].timer).(retryTimers := sv.retryTimers - {id})
  }

  lemma DropOneSound(sv: ServiceState, id: string)
    requires HalfSound(sv) && id in sv.retryTimers
    ensures HalfSound(DropOne(sv, id)) && SamePolling(sv, DropOne(sv, id))
  {
  }

  lemma {:induction false} DropStaleSound(sv: ServiceState, ids: seq<string>)
    requires HalfSound(sv)
    requires forall id :: id in ids ==> id in sv.retryTimers
    requires forall i, j :: 0 <= i < j < |ids| ==> ids[i] != ids[j]
    ensures var tv := DropStale(sv, ids);
            && HalfSound(tv) && SamePolling(sv, tv)
            && (forall id :: id in tv.retryTimers ==> id in sv.retryTimers && (id in ids ==> Current(tv, id)))
    decreases |ids|
  {
    DropStaleKeepsState(sv, ids);
    if ids != [] {
      assert ids[0] in ids;
      var next := DropOne(sv, ids[0]);
      DropOneSound(sv, ids[0]);
      DropStaleSound(next, ids[1..]);
      DropStaleKeepsState(next, ids[1..]);
      DropStaleKeepsTimers(next, ids[1..]);
      SamePollingTransitive(sv, next, DropStale(next, ids[1..]));
    }
  }

  lemma {:induction false} DropStaleKeepsTimers(sv: ServiceState, ids: seq<string>)
    requires forall id :: id in ids ==> id in sv.retryTimers
    requires forall i, j :: 0 <= i < j < |ids| ==> ids[i] != ids[j]
    ensures forall id :: id in DropStale(sv, ids).retryTimers ==>
              id in sv.retryTimers && DropStale(sv, ids).retryTimers[id] == sv.retryTimers[id]
    decreases |ids|
  {
    if ids != [] {
      assert ids[0] in ids;
      DropStaleKeepsTimers(DropOne(sv, ids[0]), ids[1..]);
    }
  }

  lemma ArmOneSound(sv: ServiceState, now: int, id: string)
    requires HalfSound(sv) && id in sv.state.retrying && sv.state.retrying[id].nonce <= sv.state.retryNonce
    ensures HalfSound(ArmOne(sv, now, id)) && SamePolling(sv, ArmOne(sv, now, id))
  {
  }

  lemma ArmOneCurrent(sv: ServiceState, now: int, id: string)
    requires id in sv.state.retrying
    ensures Current(ArmOne(sv, now, id), id)
    ensures forall other :: Current(sv, other) ==> Current(ArmOne(sv, now, id), other)
    ensures forall other :: other in ArmOne(sv, now, id).retryTimers ==> other in sv.retryTimers || other == id
  {
  }

  lemma {:induction false} ArmMissingSound(sv: ServiceState, now: int, ids: seq<string>)
    requires HalfSound(sv)
    requires forall id :: id in ids ==> id in sv.state.retrying
    requires forall id :: id in sv.state.retrying ==> sv.state.retrying[id].nonce <= sv.state.retryNonce
    requires forall id :: id in sv.retryTimers ==> Current(sv, id)
    ensures var tv := ArmMissing(sv, now, ids);
            && HalfSound(tv) && SamePolling(sv, tv) && tv.state == sv.state
            && (forall id :: id in tv.retryTimers ==> Current(tv, id))
            && (forall id :: id in ids || id in sv.retryTimers ==> Current(tv, id))
    decreases |ids|
  {
    if ids != [] {
      var next := ArmOne(sv, now, ids[0]);
      ArmOneSound(sv, now, ids[0]);
      ArmOneCurrent(sv, now, ids[0]);
      ArmMissingSound(next, now, ids[1..]);
      SamePollingTransitive(sv, next, ArmMissing(next, now, ids[1..]));
      assert Current(next, ids[0]);
      forall id | id in ids ensures Current(ArmMissing(next, now, ids[1..]), id) {
        assert id == ids[0] || id in ids[1..];
      }
    }
  }

  lemma {:induction false} ArmMissingKeeps(sv: ServiceState, now: int, ids: seq<string>)
    requires forall id :: id in ids ==> id in sv.state.retrying
    ensures ArmMissing(sv, now, ids).state == sv.state && ArmMissing(sv, now, ids).closed == sv.closed
    decreases |ids|
  {
    if ids != [] {
      ArmMissingKeeps(ArmOne(sv, now, ids[0]), now, ids[1..]);
    }
  }

  /** Synchronising touches no scheduling state, open or closed. */
  lemma SyncKeeps(deps: Deps, sv: ServiceState, now: int)
    requires WellOrdered(deps)
    ensures var tv := SyncRetryTimers(deps, sv, now);
            tv.state == sv.state.(calls := sv.state.calls + 2) && tv.closed == sv.closed
  {
    var known := deps.order(sv.state.calls, sv.retryTimers.Keys);
    assert Lists(known, sv.retryTimers.Keys);
    var queued := deps.order(sv.state.calls + 1, sv.state.retrying.Keys);
    assert Lists(queued, sv.state.retrying.Keys);
    var counted := sv.(state := sv.state.(calls := sv.state.calls + 2));
    DropStaleKeepsState(counted, known);
    ArmMissingKeeps(DropStale(counted, known), now, queued);
  }

  lemma CountedHalfSound(sv: ServiceState, counted: ServiceState)
    requires HalfSound(sv) && counted == sv.(state := sv.state.(calls := counted.state.calls))
    ensures HalfSound(counted) && SamePolling(sv, counted)
  {
  }

  /** After synchronising, retry timers and queued retries have the same keys and nonces. */
  lemma SyncSound(deps: Deps, sv: ServiceState, now: int)
    requires WellOrdered(deps) && HalfSound(sv)
    requires forall id :: id in sv.state.retrying ==> sv.state.retrying[id].nonce <= sv.state.retryNonce
    ensures RetrySound(SyncRetryTimers(deps, sv, now))
    ensures SamePolling(sv, SyncRetryTimers(deps, sv, now))
  {
    var known := deps.order(sv.state.calls, sv.retryTimers.Keys);
    assert Lists(known, sv.retryTimers.Keys);
    var queued := deps.order(sv.state.calls + 1, sv.state.retrying.Keys);
    assert Lists(queued, sv.state.retrying.Keys);
    var counted := sv.(state := sv.state.(calls := sv.state.calls + 2));
    CountedHalfSound(sv, counted);
    SyncListedSound(counted, now, known, queued);
    SamePollingTransitive(sv, counted, SyncRetryTimers(deps, sv, now));
  }

  /** The same for any two orders in which the maps are walked. */
  lemma SyncListedSound(sv: ServiceState, now: int, known: seq<string>, queued: seq<string>)
    requires HalfSound(sv) && Lists(known, sv.retryTimers.Keys) && Lists(queued, sv.state.retrying.Keys)
    requires forall id :: id in sv.state.retrying ==> sv.state.retrying[id].nonce <= sv.state.retryNonce
    ensures DropStale(sv, known).state == sv.state
    ensures RetrySound(ArmMissing(DropStale(sv, known), now, queued))
    ensures SamePolling(sv, ArmMissing(DropStale(sv, known), now, queued))
  {
    DropStaleKeepsState(sv, known);
    DropStaleSound(sv, known);
    var dropped := DropStale(sv, known);
    forall id | id in dropped.retryTimers ensures Current(dropped, id) { assert id in known; }
    ArmMissingSound(dropped, now, queued);
    SamePollingTransitive(sv, dropped, ArmMissing(dropped, now, queued));
    AllCurrent(ArmMissing(dropped, now, queued));
  }

  lemma AllCurrent(sv: ServiceState)
    requires HalfSound(sv)
    requires forall id :: id in sv.retryTimers || id in sv.state.retrying ==> Current(sv, id)
    ensures RetrySound(sv)
  {
  }

  /** Scheduling operations leave the timers half sound, ready to be synchronised. */
  lemma EvolvedHalfSound(sv: ServiceState, s: State)
    requires TimersSound(sv) && Registered(sv) && NoStray(sv, sv.state.retryNonce) && Evolves(sv.state, s)
    ensures HalfSound(sv.(state := s))
  {
  }

  lemma NoncesBounded(cfg: Config, s: State)
    requires Inv(cfg, s)
    ensures forall id :: id in s.retrying ==> s.retrying[id].nonce <= s.retryNonce
  {
    forall id | id in s.retrying ensures s.retrying[id].nonce <= s.retryNonce { assert Sound(s, id); }
  }

  // ----- one step -----

  lemma EvolveAndSync(cfg: Config, deps: Deps, sv: ServiceState, now: int, s: State)
    requires WellOrdered(deps) && TimersSound(sv) && Registered(sv) && NoStray(sv, sv.state.retryNonce)
    requires Evolves(sv.state, s) && Inv(cfg, s)
    ensures var tv := SyncRetryTimers(deps, sv.(state := s), now);
            && Inv(cfg, tv.state) && RetrySound(tv) && TimersSound(tv) && SamePolling(sv.(state := s), tv)
            && tv.closed == sv.closed && tv.state == s.(calls := s.calls + 2)
  {
    EvolvedHalfSound(sv, s);
    NoncesBounded(cfg, s);
    SyncAll(cfg, deps, sv.(state := s), now);
  }

  lemma SyncAll(cfg: Config, deps: Deps, sv: ServiceState, now: int)
    requires WellOrdered(deps) && HalfSound(sv) && Inv(cfg, sv.state)
    requires forall id :: id in sv.state.retrying ==> sv.state.retrying[id].nonce <= sv.state.retryNonce
    ensures var tv := SyncRetryTimers(deps, sv, now);
            && Inv(cfg, tv.state) && RetrySound(tv) && TimersSound(tv) && SamePolling(sv, tv)
            && tv.closed == sv.closed && tv.state == sv.state.(calls := sv.state.calls + 2)
  {
    SyncSound(deps, sv, now);
    SyncKeeps(deps, sv, now);
    SameCore(cfg, sv.state, sv.state.(calls := sv.state.calls + 2));
    SamePollingKeeps(sv, SyncRetryTimers(deps, sv, now));
  }

  lemma ApplyEventSound(cfg: Config, deps: Deps, sv: ServiceState, now: int, event: RunEvent)
    requires ServiceInv(cfg, sv) && WellOrdered(deps)
    ensures ServiceInv(cfg, ApplyEvent(cfg, deps, sv, now, event))
  {
    var s := ApplyRunEvent(cfg, sv.state, now, event);
    ApplyRunEventSound(cfg, sv.state, now, event);
    ApplyRunEventEvolves(cfg, sv.state, now, event);
    SyncKeeps(deps, sv.(state := s), now);
    SameCore(cfg, s, s.(calls := s.calls + 2));
    if !sv.closed {
      EvolveAndSync(cfg, deps, sv, now, s);
      assert PollSound(sv.(state := s));
      SamePollingKeeps(sv.(state := s), SyncRetryTimers(deps, sv.(state := s), now));
    }
  }

  lemma SchedulePollSound(sv: ServiceState, now: int, delay: int)
    requires !sv.closed && TimersSound(sv) && RetrySound(sv) && !sv.state.checking
    requires exists slot :: OnlyCurrent(sv, slot)
    ensures var tv := SchedulePoll(sv, now, delay);
            TimersSound(tv) && PollSound(tv) && RetrySound(tv) && !tv.closed
  {
    SameRetriesKeeps(sv, SchedulePoll(sv, now, delay));
  }

  lemma RefreshSound(cfg: Config, sv: ServiceState, now: int)
    requires ServiceInv(cfg, sv)
    ensures ServiceInv(cfg, Refresh(sv, now).0)
  {
    var state := RequestRefresh(sv.state, now).0;
    RefreshCore(cfg, sv, now);
    if !sv.closed && !RequestRefresh(sv.state, now).1 {
      assert OnlyCurrent(sv.(state := state), None);
      SchedulePollSound(sv.(state := state), now, 0);
    }
  }

  lemma RefreshUnmoved(sv: ServiceState, now: int)
    ensures Unmoved(sv.state, Refresh(sv, now).0.state)
  {
  }

  lemma RefreshCore(cfg: Config, sv: ServiceState, now: int)
    requires Inv(cfg, sv.state)
    ensures Inv(cfg, Refresh(sv, now).0.state)
  {
    var state := Refresh(sv, now).0.state;
    RefreshUnmoved(sv, now);
    SameCore(cfg, sv.state, state);
  }

  /** Taking a poll timer off the pending set disturbs no retry, and no timer number. */
  lemma TakenSound(sv: ServiceState, t: nat)
    requires TimersSound(sv) && RetrySound(sv) && t in sv.timers && !sv.timers[t].call.RetryTick?
    ensures var taken := sv.(timers := sv.timers - {t});
            TimersSound(taken) && RetrySound(taken)
  {
    SameRetriesKeeps(sv, sv.(timers := sv.timers - {t}));
  }

  /** A poll callback with an old nonce is not the one the poll loop waits for. */
  lemma StalePollSound(sv: ServiceState, t: nat)
    requires PollSound(sv) && t in sv.timers && PollNonceOf(sv.timers[t].call).Some?
    requires PollNonceOf(sv.timers[t].call).value != sv.state.pollNonce
    ensures PollSound(sv.(timers := sv.timers - {t}))
  {
  }

  /** Taking the current poll callback leaves only older ones. */
  lemma CurrentPollTaken(sv: ServiceState, t: nat)
    requires PollSound(sv) && t in sv.timers && PollNonceOf(sv.timers[t].call) == Some(sv.state.pollNonce)
    ensures sv.timers[t].call == if sv.state.checking then Cycle(sv.state.pollNonce) else Tick(sv.state.pollNonce)
    ensures OnlyCurrent(sv.(timers := sv.timers - {t}), None)
  {
  }

  lemma StopCycleSound(sv: ServiceState)
    requires TimersSound(sv) && RetrySound(sv) && OnlyCurrent(sv, None)
    ensures var stopped := StopSome(sv, sv.cycleTimer);
            TimersSound(stopped) && RetrySound(stopped) && OnlyCurrent(stopped, None)
  {
    SameRetriesKeeps(sv, StopSome(sv, sv.cycleTimer));
  }

  lemma StartCycleSound(cfg: Config, sv: ServiceState, now: int)
    requires TimersSound(sv) && RetrySound(sv) && sv.state.nextPollAt.None? && sv.state.checking
    requires OnlyCurrent(sv, None)
    ensures var tv := StartCycle(cfg, sv, now, sv.state.pollNonce);
            TimersSound(tv) && PollSound(tv) && RetrySound(tv)
  {
    StopCycleSound(sv);
    SameRetriesKeeps(StopSome(sv, sv.cycleTimer), StartCycle(cfg, sv, now, sv.state.pollNonce));
  }

  lemma BegunSound(cfg: Config, sv: ServiceState)
    requires Inv(cfg, sv.state) && TimersSound(sv) && RetrySound(sv) && OnlyCurrent(sv, None)
    ensures var begun := sv.(state := BeginPoll(sv.state, sv.state.pollNonce).0);
            Inv(cfg, begun.state) && TimersSound(begun) && RetrySound(begun) && OnlyCurrent(begun, None)
  {
    var begun := sv.(state := BeginPoll(sv.state, sv.state.pollNonce).0);
    SameCore(cfg, sv.state, begun.state);
    SameRetriesKeeps(sv, begun);
  }

  lemma PollTickSound(cfg: Config, sv: ServiceState, now: int, t: nat)
    requires ServiceInv(cfg, sv) && t in sv.timers && sv.timers[t].call.Tick?
    ensures ServiceInv(cfg, HandlePollTick(cfg, sv.(timers := sv.timers - {t}), now, sv.timers[t].call.nonce))
  {
    var nonce := sv.timers[t].call.nonce;
    var taken := sv.(timers := sv.timers - {t});
    if !sv.closed {
      TakenSound(sv, t);
      if nonce == sv.state.pollNonce {
        CurrentPollTaken(sv, t);
        BegunSound(cfg, taken);
        StartCycleSound(cfg, taken.(state := BeginPoll(taken.state, nonce).0), now);
      } else {
        StalePollSound(sv, t);
      }
    }
  }

  lemma ReconcileSound(cfg: Config, deps: Deps, s: State, now: int)
    requires Inv(cfg, s) && WellOrdered(deps)
    ensures Inv(cfg, Reconcile(cfg, deps, s, now)) && Evolves(s, Reconcile(cfg, deps, s, now))
  {
    var stalled := ReconcileStalled(cfg, deps, s, now);
    ReconcileStalledSound(cfg, deps, s, now);
    ReconcileStalledEvolves(cfg, deps, s, now);
    ReconcileRunningSound(cfg, deps, stalled);
    ReconcileRunningEvolves(cfg, deps, stalled);
    EvolvesTransitive(s, stalled, ReconcileRunning(cfg, deps, stalled));
  }

  lemma ListAndDispatchSound(cfg: Config, deps: Deps, s: State, now: int)
    requires Inv(cfg, s) && EchoesId(deps)
    ensures Inv(cfg, ListAndDispatch(cfg, deps, s, now)) && Evolves(s, ListAndDispatch(cfg, deps, s, now))
  {
    if deps.list.Some? {
      var answer := deps.list.value(s.calls);
      var listed := s.(calls := s.calls + 1);
      SameCore(cfg, s, listed);
      if answer.Ok? {
        ProcessCandidatesSound(cfg, deps, listed, now, answer.value);
        ProcessCandidatesEvolves(cfg, deps, listed, now, answer.value);
      }
    }
  }

  lemma CycleStateSound(cfg: Config, deps: Deps, s: State, now: int)
    requires Inv(cfg, s) && Environment(deps)
    ensures Inv(cfg, CycleState(cfg, deps, s, now)) && Evolves(s, CycleState(cfg, deps, s, now))
  {
    var reconciled := Reconcile(cfg, deps, s, now);
    ReconcileSound(cfg, deps, s, now);
    ListAndDispatchSound(cfg, deps, reconciled, now);
    EvolvesTransitive(s, reconciled, ListAndDispatch(cfg, deps, reconciled, now));
  }

  /** The end of a cycle: the next tick is scheduled and no other callback carries its nonce. */
  lemma FinishedSound(cfg: Config, before: ServiceState, synced: ServiceState, now: int)
    requires SamePolling(before, synced) && OnlyCurrent(before, None)
    requires !synced.closed && Inv(cfg, synced.state) && TimersSound(synced) && RetrySound(synced)
    ensures ServiceInv(cfg, SchedulePoll(synced.(state := FinishPoll(cfg, synced.state, now)), now, cfg.interval))
  {
    var finished := synced.(state := FinishPoll(cfg, synced.state, now));
    SameRetriesKeeps(synced, finished);
    assert OnlyCurrent(finished, None);
    SchedulePollSound(finished, now, cfg.interval);
    FinishedCore(cfg, synced, now);
  }

  lemma FinishedCore(cfg: Config, synced: ServiceState, now: int)
    requires Inv(cfg, synced.state)
    ensures Inv(cfg, SchedulePoll(synced.(state := FinishPoll(cfg, synced.state, now)), now, cfg.interval).state)
  {
    var finished := synced.(state := FinishPoll(cfg, synced.state, now));
    SameCore(cfg, synced.state, SchedulePoll(finished, now, cfg.interval).state);
  }

  lemma PollCycleSound(cfg: Config, deps: Deps, sv: ServiceState, now: int, t: nat)
    requires ServiceInv(cfg, sv) && Environment(deps) && t in sv.timers && sv.timers[t].call.Cycle?
    ensures ServiceInv(cfg, HandlePollCycle(cfg, deps, sv.(timers := sv.timers - {t}), now, sv.timers[t].call.nonce))
  {
    var nonce := sv.timers[t].call.nonce;
    var taken := sv.(timers := sv.timers - {t});
    if !sv.closed {
      TakenSound(sv, t);
      if sv.state.checking && nonce == sv.state.pollNonce {
        CycleStateSound(cfg, deps, sv.state, now);
        var s := CycleState(cfg, deps, sv.state, now);
        EvolveAndSync(cfg, deps, taken, now, s);
        CurrentPollTaken(sv, t);
        assert OnlyCurrent(taken.(state := s), None);
        FinishedSound(cfg, taken.(state := s), SyncRetryTimers(deps, taken.(state := s), now), now);
      } else {
        StalePollSound(sv, t);
      }
    }
  }

  /** Taking the registered timer of a queued retry, with its registration and its queue entry. */
  lemma ConsumedRegistrationSound(sv: ServiceState, t: nat)
    requires TimersSound(sv) && RetrySound(sv) && t in sv.timers && sv.timers[t].call.RetryTick?
    requires sv.timers[t].call.id in sv.retryTimers
    requires sv.retryTimers[sv.timers[t].call.id] == Scheduled(sv.timers[t].call.nonce, t)
    ensures var id := sv.timers[t].call.id;
            var forgotten := sv.(timers := sv.timers - {t}, retryTimers := sv.retryTimers - {id},
                                 state := Consume(sv.state, id, sv.timers[t].call.nonce));
            TimersSound(forgotten) && Registered(forgotten) && NoStray(forgotten, forgotten.state.retryNonce)
  {
  }

  /** A retry callback whose nonce is no longer queued is nobody's registered timer. */
  lemma StaleRetrySound(sv: ServiceState, t: nat)
    requires RetrySound(sv) && t in sv.timers && sv.timers[t].call.RetryTick?
    requires var call := sv.timers[t].call; !(call.id in sv.state.retrying && sv.state.retrying[call.id].nonce == call.nonce)
    ensures Registered(sv.(timers := sv.timers - {t}))
    ensures NoStray(sv.(timers := sv.timers - {t}), sv.state.retryNonce)
  {
  }

  lemma RetryTickSound(cfg: Config, deps: Deps, sv: ServiceState, now: int, t: nat)
    requires ServiceInv(cfg, sv) && Environment(deps) && t in sv.timers && sv.timers[t].call.RetryTick?
    ensures var call := sv.timers[t].call;
            ServiceInv(cfg, HandleRetryTick(cfg, deps, sv.(timers := sv.timers - {t}), now, call.id, call.nonce))
  {
    var id, nonce := sv.timers[t].call.id, sv.timers[t].call.nonce;
    var taken := sv.(timers := sv.timers - {t});
    if !sv.closed {
      var s := HandleDueRetry(cfg, deps, sv.state, now, id, nonce);
      HandleDueRetrySound(cfg, deps, sv.state, now, id, nonce);
      HandleDueRetryEvolves(cfg, deps, sv.state, now, id, nonce);
      SamePollingKeeps(sv, taken);
      if id in sv.state.retrying && sv.state.retrying[id].nonce == nonce {
        assert sv.retryTimers[id] == Scheduled(nonce, t);
        var forgotten := taken.(retryTimers := taken.retryTimers - {id}, state := Consume(sv.state, id, nonce));
        ConsumedRegistrationSound(sv, t);
        EvolveAndSync(cfg, deps, forgotten, now, s);
        assert PollSound(forgotten.(state := s));
        SamePollingKeeps(forgotten.(state := s), SyncRetryTimers(deps, forgotten.(state := s), now));
      } else {
        StaleRetrySound(sv, t);
        EvolveAndSync(cfg, deps, taken, now, s);
        SamePollingKeeps(taken, SyncRetryTimers(deps, taken, now));
      }
    }
  }

  lemma {:induction false} StopEachKeeps(sv: ServiceState, ids: seq<string>)
    requires forall id :: id in ids ==> id in sv.retryTimers
    requires forall i, j :: 0 <= i < j < |ids| ==> ids[i] != ids[j]
    ensures StopEach(sv, ids).state == sv.state && StopEach(sv, ids).closed == sv.closed
    decreases |ids|
  {
    if ids != [] {
      assert ids[0] in ids;
      StopEachKeeps(Stop(sv, sv.retryTimers[ids[0]].timer).(retryTimers := sv.retryTimers - {ids[0]}), ids[1..]);
    }
  }

  lemma CloseKeeps(deps: Deps, sv: ServiceState)
    requires WellOrdered(deps)
    ensures Close(deps, sv).closed && Close(deps, sv).state == sv.state.(calls := sv.state.calls + 1)
  {
    var ids := deps.order(sv.state.calls, sv.retryTimers.Keys);
    assert Lists(ids, sv.retryTimers.Keys);
    var stopped := StopSome(StopSome(sv.(closed := true), sv.pollTimer), sv.cycleTimer);
    StopEachKeeps(stopped.(state := stopped.state.(calls := stopped.state.calls + 1)), ids);
  }

  lemma ExpireSound(cfg: Config, sv: ServiceState, t: nat)
    requires ServiceInv(cfg, sv) && t in sv.timers
    ensures ServiceInv(cfg, sv.(timers := sv.timers[t := sv.timers[t].(expired := true)]))
  {
    var tv := sv.(timers := sv.timers[t := sv.timers[t].(expired := true)]);
    if !sv.closed {
      assert TimersSound(tv);
      assert OnlyCurrent(tv, if sv.state.checking then sv.cycleTimer else sv.pollTimer);
      SameRetriesKeeps(sv, tv);
    }
  }

  /** Every step of the service keeps the whole invariant. */
  lemma StepSound(cfg: Config, deps: Deps, sv: ServiceState, input: Input)
    requires ServiceInv(cfg, sv) && Environment(deps)
    ensures ServiceInv(cfg, Step(cfg, deps, sv, input))
  {
    match input
    case Expire(t) => if t in sv.timers { ExpireSound(cfg, sv, t); }
    case Deliver(t, now) =>
      if t in sv.timers && sv.timers[t].expired {
        match sv.timers[t].call
        case Tick(_) => PollTickSound(cfg, sv, now, t);
        case Cycle(_) => PollCycleSound(cfg, deps, sv, now, t);
        case RetryTick(_, _) => RetryTickSound(cfg, deps, sv, now, t);
      }
    case Event(event, now) => ApplyEventSound(cfg, deps, sv, now, event);
    case Ask(now) => RefreshSound(cfg, sv, now);
    case CloseService =>
      CloseKeeps(deps, sv);
      SameCore(cfg, sv.state, sv.state.(calls := sv.state.calls + 1));
  }

  lemma NewServiceSound(cfg: Config, now: int)
    ensures ServiceInv(cfg, NewService(now))
  {
    EmptySound(cfg);
    var empty := ServiceState(EMPTY, false, None, None, map[], map[], 0);
    assert OnlyCurrent(empty, None);
    SchedulePollSound(empty, now, 0);
    SameCore(cfg, EMPTY, SchedulePollAt(EMPTY, now));
  }

  lemma {:induction false} RunSound(cfg: Config, deps: Deps, sv: ServiceState, inputs: seq<Input>)
    requires ServiceInv(cfg, sv) && Environment(deps)
    ensures ServiceInv(cfg, RunFrom(cfg, deps, sv, inputs))
    decreases |inputs|
  {
    if inputs != [] {
      StepSound(cfg, deps, sv, inputs[0]);
      RunSound(cfg, deps, Step(cfg, deps, sv, inputs[0]), inputs[1..]);
    }
  }
}
