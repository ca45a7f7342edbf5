/** The mutable scheduler of internal/orchestrator/state.go, each method proved against its specification. */
module SchedulerObject {
  import opened Text
  import opened Domain
  import opened Scheduler
  import opened Safety
  import opened Ordering
  import Hosts
  import Backoff
  import Snapshots
  import HostCapacity

  /** sort.Strings: hosts listed once each, in byte order. */
  method SortedHosts(hosts: set<string>) returns (list: seq<string>)
    ensures Lists(list, hosts) && Sorted(list, Before)
  {
    list := [];
    var todo := hosts;
    while todo != {}
      invariant todo <= hosts
      invariant Lists(list, hosts - todo) && Sorted(list, Before)
    {
      var host :| host in todo;
      var k := 0;
      while k < |list| && Before(list[k], host)
        invariant k <= |list|
        invariant forall j :: 0 <= j < k ==> Before(list[j], host)
      {
        k := k + 1;
      }
      InsertSorted(list, host, k);
      list := list[..k] + [host] + list[k..];
      todo := todo - {host};
    }
    assert hosts - todo == hosts;
  }

  lemma InsertKeepsMembers(list: seq<string>, host: string, k: nat, x: string)
    requires k <= |list|
    ensures x in list[..k] + [host] + list[k..] <==> x in list || x == host
  {
    var longer := list[..k] + [host] + list[k..];
    assert list == list[..k] + list[k..];
    assert longer[k] == host;
  }

  lemma NotBeforeFrom(list: seq<string>, host: string, k: nat, j: nat)
    requires k <= j < |list| && Sorted(list, Before) && Distinct(list) && host !in list && !Before(list[k], host)
    ensures !Before(list[j], host)
  {
    if j > k && Before(list[j], host) {
      BeforeTrichotomy(list[k], list[j]);
      BeforeTrichotomy(list[k], host);
      assert list[k] in list;
      if Before(list[k], list[j]) { BeforeTransitive(list[k], list[j], host); }
    }
  }

  lemma InsertSorted(list: seq<string>, host: string, k: nat)
    requires k <= |list| && Sorted(list, Before) && host !in list && Distinct(list)
    requires forall j :: 0 <= j < k ==> Before(list[j], host)
    requires k < |list| ==> !Before(list[k], host)
    ensures var longer := list[..k] + [host] + list[k..];
            && Sorted(longer, Before) && Distinct(longer)
            && (forall x :: x in longer <==> x in list || x == host)
  {
    var longer := list[..k] + [host] + list[k..];
    forall j | 0 <= j < k ensures !Before(host, list[j]) {
      BeforeAsymmetric(list[j], host);
    }
    forall j | k <= j < |list| ensures !Before(list[j], host) {
      NotBeforeFrom(list, host, k, j);
    }
    forall x ensures x in longer <==> x in list || x == host {
      InsertKeepsMembers(list, host, k, x);
    }
    forall j | 0 <= j < |list| ensures list[j] != host {
      assert list[j] in list;
    }
  }

  /** The loads hostLoads reports add up, host by host, to the number of runs there. */
  lemma LoadsAreCounts(running: map<string, Run>, hosts: seq<string>, loads: seq<Hosts.HostLoad>, host: string)
    requires |loads| == |hosts| && host != "" && Distinct(hosts)
    requires forall i :: 0 <= i < |hosts| ==> loads[i] == Hosts.HostLoad(hosts[i], |OnHost(running, hosts[i])|)
    requires forall i :: 0 <= i < |hosts| ==> Trim(hosts[i]) == hosts[i]
    ensures Hosts.LoadOn(loads, host) == if host in hosts then |OnHost(running, host)| else 0
  {
    if hosts != [] {
      var n := |hosts| - 1;
      LoadsAreCounts(running, hosts[..n], loads[..n], host);
      assert hosts == hosts[..n] + [hosts[n]];
      if host == hosts[n] {
        assert host !in hosts[..n];
      }
    }
  }

  ghost predicate CountRight(counts: map<string, nat>, runs: map<string, Run>, host: string) {
    if host in HostsInUse(runs) then host in counts && counts[host] == |OnHost(runs, host)| else host !in counts
  }

  /** The counts of the hosts in use, and of no others. */
  ghost predicate CountsRuns(counts: map<string, nat>, runs: map<string, Run>) {
    forall host :: CountRight(counts, runs, host)
  }

  lemma InUseWithOneMore(seen: map<string, Run>, id: string, run: Run, host: string)
    requires id !in seen && host != ""
    ensures host in HostsInUse(seen[id := run]) <==> host in HostsInUse(seen) || host == Trim(run.workerHost)
  {
    var after := seen[id := run];
    if host in HostsInUse(seen) {
      var other :| other in seen && !IsBlank(seen[other].workerHost) && Trim(seen[other].workerHost) == host;
      assert after[other] == seen[other];
    } else if host == Trim(run.workerHost) {
      assert !IsBlank(after[id].workerHost);
    }
  }

  lemma OnHostWithOneMore(seen: map<string, Run>, id: string, run: Run, host: string)
    requires id !in seen
    ensures |OnHost(seen[id := run], host)| == |OnHost(seen, host)| + (if host == Trim(run.workerHost) then 1 else 0)
  {
    var before, after := OnHost(seen, host), OnHost(seen[id := run], host);
    if host == Trim(run.workerHost) {
      forall x ensures x in after <==> x in before + {id} {}
      assert after == before + {id};
    } else {
      forall x ensures x in after <==> x in before {}
      assert after == before;
    }
  }

  lemma InUseIffNonEmpty(runs: map<string, Run>, host: string)
    requires host != ""
    ensures host in HostsInUse(runs) <==> |OnHost(runs, host)| > 0
  {
    if host in HostsInUse(runs) {
      var id :| id in runs && !IsBlank(runs[id].workerHost) && Trim(runs[id].workerHost) == host;
      assert id in OnHost(runs, host);
    }
    if |OnHost(runs, host)| > 0 {
      var id :| id in OnHost(runs, host);
      assert !IsBlank(runs[id].workerHost);
    }
  }

  function CountHost(counts: map<string, nat>, host: string): map<string, nat> {
    if host == "" then counts else counts[host := (if host in counts then counts[host] else 0) + 1]
  }

  lemma CountOneMore(counts: map<string, nat>, seen: map<string, Run>, id: string, run: Run)
    requires CountsRuns(counts, seen) && id !in seen
    ensures CountsRuns(CountHost(counts, Trim(run.workerHost)), seen[id := run])
  {
    var next, after := CountHost(counts, Trim(run.workerHost)), seen[id := run];
    forall host ensures CountRight(next, after, host) {
      CountOneMoreOn(counts, seen, id, run, host);
    }
  }

  lemma CountOneMoreOn(counts: map<string, nat>, seen: map<string, Run>, id: string, run: Run, host: string)
    requires CountRight(counts, seen, host) && id !in seen
    ensures CountRight(CountHost(counts, Trim(run.workerHost)), seen[id := run], host)
  {
    if host != "" {
      InUseWithOneMore(seen, id, run, host);
      OnHostWithOneMore(seen, id, run, host);
      InUseIffNonEmpty(seen, host);
    } else {
      assert host !in HostsInUse(seen[id := run]);
    }
  }

  lemma CountsNameHosts(counts: map<string, nat>, runs: map<string, Run>)
    requires CountsRuns(counts, runs)
    ensures counts.Keys == HostsInUse(runs)
  {
    forall host ensures host in counts.Keys <==> host in HostsInUse(runs) {
      assert CountRight(counts, runs, host);
    }
  }

  lemma LoadsAreTrue(running: map<string, Run>, hosts: seq<string>, loads: seq<Hosts.HostLoad>, host: string)
    requires Lists(hosts, HostsInUse(running)) && |loads| == |hosts| && host != ""
    requires forall i :: 0 <= i < |hosts| ==> loads[i] == Hosts.HostLoad(hosts[i], |OnHost(running, hosts[i])|)
    ensures Hosts.LoadOn(loads, host) == |OnHost(running, host)|
  {
    forall i | 0 <= i < |hosts| ensures Trim(hosts[i]) == hosts[i] {
      assert hosts[i] in hosts;
      var id :| id in running && !IsBlank(running[id].workerHost) && Trim(running[id].workerHost) == hosts[i];
      TrimIdempotent(running[id].workerHost);
    }
    LoadsAreCounts(running, hosts, loads, host);
    HostCapacity.HostCountIsTrue(running, host);
  }

  lemma {:induction false} NoLoadOnBlank(loads: seq<Hosts.HostLoad>)
    ensures Hosts.LoadOn(loads, "") == 0
  {
    if loads != [] {
      NoLoadOnBlank(loads[..|loads| - 1]);
    }
  }

  /** Admission through the reported loads chooses as admission through the true counts would. */
  lemma LoadsChooseTheSame(
    running: map<string, Run>, selection: Hosts.HostSelection, preferred: string, loads: seq<Hosts.HostLoad>)
    requires forall host :: host != "" ==> Hosts.LoadOn(loads, host) == |OnHost(running, host)|
    ensures Hosts.Choose(selection, preferred, Hosts.Tally(loads)) == Hosts.Choose(selection, preferred, HostCount(running))
  {
    forall host ensures Hosts.CountFor(Hosts.Tally(loads), host) == Hosts.CountFor(HostCount(running), host) {
      Hosts.TallyIsLoad(loads, host);
      if host == "" {
        NoLoadOnBlank(loads);
        assert "" !in HostsInUse(running);
      } else {
        HostCapacity.HostCountIsTrue(running, host);
      }
    }
    Hosts.ChooseExtensional(selection, preferred, Hosts.Tally(loads), HostCount(running));
  }

  class SchedulerState {
    const cfg: Config

    var nextPollAt: Option<int>
    var checking: bool
    var pollNonce: nat
    var retryNonce: nat
    var claimed: map<string, Claim>
    var running: map<string, Run>
    var retrying: map<string, Retry>
    var totals: Totals
    var rateLimits: Option<RateLimits>

    // The number of dependency calls so far, which selects the environment's next answer.
    var calls: nat
    ghost var log: seq<Action>

    constructor (cfg: Config)
      ensures this.cfg == cfg && Value() == EMPTY && Inv(cfg, Value())
    {
      this.cfg := cfg;
      nextPollAt, checking, pollNonce, retryNonce := None, false, 0, 0;
      claimed, running, retrying := map[], map[], map[];
      totals, rateLimits, calls, log := NO_TOTALS, None, 0, [];
    }

    ghost function Value(): State
      reads this
    {
      State(nextPollAt, checking, pollNonce, retryNonce, claimed, running, retrying, totals, rateLimits, calls, log)
    }

    method SchedulePollAt(at: int) returns (nonce: nat)
      modifies this
      ensures Value() == Scheduler.SchedulePollAt(old(Value()), at) && nonce == pollNonce
    {
      pollNonce := pollNonce + 1;
      nextPollAt := Some(at);
      nonce := pollNonce;
    }

    method BeginPoll(nonce: nat) returns (begun: bool)
      modifies this
      ensures (Value(), begun) == Scheduler.BeginPoll(old(Value()), nonce)
    {
      if nonce != pollNonce {
        return false;
      }
      checking := true;
      nextPollAt := None;
      begun := true;
    }

    method FinishPoll(now: int)
      modifies this
      ensures Value() == Scheduler.FinishPoll(cfg, old(Value()), now)
    {
      nextPollAt := Some(now + cfg.interval);
      checking := false;
      pollNonce := pollNonce + 1;
    }

    method RequestRefresh(now: int) returns (coalesced: bool)
      modifies this
      ensures (Value(), coalesced) == Scheduler.RequestRefresh(old(Value()), now)
    {
      if checking {
        return true;
      }
      if nextPollAt.Some? && !(nextPollAt.value > now) {
        return true;
      }
      var _ := SchedulePollAt(now);
      coalesced := false;
    }

    // ----- eligibility -----

    method RunningCountForState(state: string) returns (count: nat)
      ensures count == |InState(cfg, running, state)|
    {
      var runs := running;
      var normalized := cfg.Norm(state);
      count := 0;
      var todo := runs.Keys;
      ghost var matched: set<string> := {};
      while todo != {}
        invariant todo <= runs.Keys
        invariant forall id :: id in matched <==> id in runs && id !in todo && cfg.Norm(runs[id].item.state) == normalized
        invariant count == |matched|
      {
        var id :| id in todo;
        if cfg.Norm(runs[id].item.state) == normalized {
          count := count + 1;
          matched := matched + {id};
        }
        todo := todo - {id};
      }
      assert matched == InState(cfg, runs, state);
    }

    method ShouldDispatch(item: WorkItem) returns (dispatch: bool)
      ensures dispatch == Scheduler.ShouldDispatch(cfg, Value(), item)
    {
      if !RetryCandidate(cfg, item) {
        return false;
      }
      if item.id in claimed {
        return false;
      }
      if item.id in running {
        return false;
      }
      if cfg.maxConcurrent > 0 && |running| >= cfg.maxConcurrent {
        return false;
      }
      var limit := cfg.StateLimit(item.state);
      var count := RunningCountForState(item.state);
      dispatch := !(limit > 0 && count >= limit);
    }

    // ----- retry queue -----

    method ScheduleContinuationRetry(now: int, id: string, identifier: string, host: string, path: string)
      modifies this
      ensures Value() == Scheduler.ScheduleContinuationRetry(old(Value()), now, id, identifier, host, path)
    {
      retryNonce := retryNonce + 1;
      retrying := retrying[id := Retry(id, identifier, 1, now + 1_000_000_000, Completed, host, path, retryNonce)];
      log := log + [Queued(id, 1, retryNonce, Completed)];
    }

    method ScheduleFailureRetry(
      now: int, id: string, identifier: string, attempt: int, cause: Cause, host: string, path: string)
      modifies this
      ensures Value() == Scheduler.ScheduleFailureRetry(cfg, old(Value()), now, id, identifier, attempt, cause, host, path)
    {
      var n := attempt;
      if n <= 0 {
        n := 1;
      }
      retryNonce := retryNonce + 1;
      var delay := Backoff.ComputeFailureRetryDelay(n, cfg.maxRetryBackoff);
      retrying := retrying[id := Retry(id, identifier, n, now + delay, cause, host, path, retryNonce)];
      log := log + [Queued(id, n, retryNonce, cause)];
    }

    // ----- dispatch -----

    method CountHosts() returns (counts: map<string, nat>)
      ensures CountsRuns(counts, running)
    {
      counts := map[];
      var todo := running.Keys;
      ghost var seen: map<string, Run> := map[];
      while todo != {}
        invariant todo <= running.Keys
        invariant seen.Keys == running.Keys - todo && forall id :: id in seen ==> seen[id] == running[id]
        invariant CountsRuns(counts, seen)
      {
        var id :| id in todo;
        var host := Trim(running[id].workerHost);
        CountOneMore(counts, seen, id, running[id]);
        if host != "" {
          counts := counts[host := (if host in counts then counts[host] else 0) + 1];
        }
        seen := seen[id := running[id]];
        todo := todo - {id};
      }
      assert seen == running;
    }

    method HostLoads() returns (loads: seq<Hosts.HostLoad>)
      ensures forall host :: host != "" ==> Hosts.LoadOn(loads, host) == |OnHost(running, host)|
    {
      var counts := CountHosts();
      CountsNameHosts(counts, running);
      var hosts := SortedHosts(counts.Keys);
      loads := [];
      for i := 0 to |hosts|
        invariant |loads| == i
        invariant forall k :: 0 <= k < i ==> loads[k] == Hosts.HostLoad(hosts[k], |OnHost(running, hosts[k])|)
      {
        assert hosts[i] in hosts;
        assert CountRight(counts, running, hosts[i]);
        loads := loads + [Hosts.HostLoad(hosts[i], counts[hosts[i]])];
      }
      forall host | host != "" ensures Hosts.LoadOn(loads, host) == |OnHost(running, host)| {
        LoadsAreTrue(running, hosts, loads, host);
      }
    }

    method AdmitHost(deps: Deps, preferred: string) returns (host: Option<string>)
      modifies this`calls
      ensures (Value(), host) == Scheduler.AdmitHost(deps, old(Value()), preferred)
    {
      if deps.hosts.Some? {
        var loads := HostLoads();
        host := Hosts.Select(deps.hosts.value, preferred, loads);
        LoadsChooseTheSame(running, deps.hosts.value, preferred, loads);
        return;
      }
      if deps.admit.None? {
        return Some(preferred);
      }
      host := deps.admit.value(calls, preferred);
      calls := calls + 1;
    }

    method DispatchItem(deps: Deps, now: int, item: WorkItem, attempt: int, preferred: string) returns (started: bool)
      modifies this
      ensures (Value(), started) == Scheduler.DispatchItem(cfg, deps, old(Value()), now, item, attempt, preferred)
    {
      var admitted := AdmitHost(deps, preferred);
      if admitted.None? {
        return false;
      }
      var host := admitted.value;
      var result := StartResult(None, host, "", "");
      if deps.start.Some? {
        var answer := deps.start.value(calls, StartRequest(item, attempt, host));
        calls := calls + 1;
        if answer.Err? {
          var nextAttempt := attempt;
          if nextAttempt <= 0 {
            nextAttempt := 1;
          } else {
            nextAttempt := nextAttempt + 1;
          }
          log := log + [Started(item.id, attempt, host, false, None)];
          ScheduleFailureRetry(now, item.id, item.identifier, nextAttempt, StartFailed(answer.message), host, "");
          return false;
        }
        result := answer.value;
      }
      claimed := claimed[item.id := Claim(item.id, item.identifier, now)];
      running := running[item.id := Run(item, attempt, now, None, None, "", result.sessionId, 0,
                                        FirstNonEmpty(result.workerHost, host), result.workspacePath,
                                        NO_TOTALS, NO_TOTALS, result.handle)];
      retrying := retrying - {item.id};
      log := log + [Started(item.id, attempt, host, true, result.handle)];
      started := true;
    }

    method RevalidateCandidate(deps: Deps, id: string) returns (item: Option<WorkItem>)
      modifies this`calls
      ensures (Value(), item) == Scheduler.RevalidateCandidate(cfg, deps, old(Value()), id)
    {
      if deps.refresh.None? {
        if id in running {
          return Some(running[id].item);
        }
        return None;
      }
      var answer := deps.refresh.value(calls, [id]);
      calls := calls + 1;
      if answer.Err? || |answer.value| == 0 {
        return None;
      }
      var first := answer.value[0];
      if !RetryCandidate(cfg, first) {
        return None;
      }
      item := Some(first);
    }

    method ProcessCandidates(deps: Deps, now: int, candidates: seq<WorkItem>)
      modifies this
      ensures Value() == Scheduler.ProcessCandidates(cfg, deps, old(Value()), now, candidates)
    {
      var sorted := deps.sort(calls, candidates);
      calls := calls + 1;
      for i := 0 to |sorted|
        invariant TryCandidates(cfg, deps, Value(), now, sorted[i..])
                  == Scheduler.ProcessCandidates(cfg, deps, old(Value()), now, candidates)
      {
        ghost var before := Value();
        var item := sorted[i];
        assert sorted[i..][0] == item && sorted[i..][1..] == sorted[i + 1..];
        var dispatch := ShouldDispatch(item);
        if dispatch {
          var refreshed := RevalidateCandidate(deps, item.id);
          if refreshed.Some? {
            var _ := DispatchItem(deps, now, refreshed.value, 0, "");
          }
        }
        assert Value() == TryCandidate(cfg, deps, before, now, item);
      }
    }

    // ----- worker events -----

    method ApplyAggregateDelta(run: Run, reported: Totals) returns (updated: Run)
      modifies this`totals
      ensures totals == AddIncrease(old(totals), run.lastReported, reported)
      ensures updated == run.(totals := reported, lastReported := reported)
    {
      totals := Totals(totals.input + Increase(run.lastReported.input, reported.input),
                       totals.output + Increase(run.lastReported.output, reported.output),
                       totals.total + Increase(run.lastReported.total, reported.total),
                       totals.seconds + Increase(run.lastReported.seconds, reported.seconds));
      updated := run.(totals := reported, lastReported := reported);
    }

    method StampEntryMetadata(event: RunEvent) returns (entry: Run)
      requires event.itemId in running
      ensures entry == StampMetadata(running[event.itemId], event)
    {
      entry := running[event.itemId];
      if event.at.Some? {
        entry := entry.(lastEventAt := event.at);
      }
      entry := entry.(lastEventKind := Some(event.kind), lastEventMessage := event.message);
      if event.workerHost != "" {
        entry := entry.(workerHost := event.workerHost);
      }
      if event.workspacePath != "" {
        entry := entry.(workspacePath := event.workspacePath);
      }
      if event.sessionId != "" {
        entry := entry.(sessionId := event.sessionId);
      }
      if event.kind.TurnCompleted? {
        entry := entry.(turnCount := entry.turnCount + 1);
      }
    }

    /** The part of applyRunEvent before its switch: metadata, totals and rate limits. */
    method StampEntry(event: RunEvent) returns (entry: Run)
      requires event.itemId in running
      modifies this`totals, this`rateLimits, this`log
      ensures Value() == Account(old(Value()), event)
      ensures entry == Stamp(running[event.itemId], event)
    {
      entry := StampEntryMetadata(event);
      if event.totals != NO_TOTALS {
        entry := ApplyAggregateDelta(entry, event.totals);
        log := log + [Reported(event.itemId, event.totals)];
      }
      if event.rateLimits.Some? {
        rateLimits := event.rateLimits;
      }
    }

    method ApplyRunEvent(now: int, event: RunEvent)
      modifies this
      ensures Value() == Scheduler.ApplyRunEvent(cfg, old(Value()), now, event)
    {
      if event.itemId !in running {
        return;
      }
      var entry := StampEntry(event);
      match event.kind {
        case RunCompleted =>
          running := running - {event.itemId};
          ScheduleContinuationRetry(now, entry.item.id, entry.item.identifier, entry.workerHost, entry.workspacePath);
        case RunFailed =>
          running := running - {event.itemId};
          var lastError := event.message;
          if event.error.Some? {
            lastError := event.error.value;
          }
          ScheduleFailureRetry(now, entry.item.id, entry.item.identifier, NextFailureAttempt(entry.attempt),
                               WorkerFailed(lastError), entry.workerHost, entry.workspacePath);
        case _ =>
          running := running[event.itemId := entry];
      }
    }

    // ----- due retries -----

    method StopWithIntent(id: string, identifier: string, handle: Option<nat>, cleanup: bool)
      modifies this
      ensures Value() == Scheduler.StopWithIntent(old(Value()), id, identifier, handle, cleanup)
    {
      calls := calls + 1;
      log := log + [StopCalled(id, identifier, handle, cleanup)];
    }

    method RefreshRetryItem(deps: Deps, id: string) returns (status: RetryStatus)
      modifies this`calls
      ensures (Value(), status) == Scheduler.RefreshRetryItem(cfg, deps, old(Value()), id)
    {
      if deps.refresh.None? {
        return RetryRefreshFailed;
      }
      var answer := deps.refresh.value(calls, [id]);
      calls := calls + 1;
      if answer.Err? {
        return RetryRefreshFailed;
      }
      if |answer.value| == 0 {
        return Missing;
      }
      var item := answer.value[0];
      if cfg.Terminal(item.state) {
        return TerminalItem;
      }
      if !RetryCandidate(cfg, item) {
        return Ineligible;
      }
      status := Ready(item);
    }

    method Requeue(now: int, id: string, entry: Retry, identifier: string, cause: Cause)
      modifies this
      ensures Value() == Scheduler.Requeue(cfg, old(Value()), now, id, entry, identifier, cause)
    {
      ScheduleFailureRetry(now, id, identifier, entry.attempt + 1, cause, entry.workerHost, entry.workspacePath);
    }

    method Redispatch(deps: Deps, now: int, id: string, entry: Retry, item: WorkItem)
      modifies this
      ensures Value() == Scheduler.Redispatch(cfg, deps, old(Value()), now, id, entry, item)
    {
      if cfg.maxConcurrent > 0 && |running| >= cfg.maxConcurrent {
        Requeue(now, id, entry, item.identifier, NoSlots);
        return;
      }
      var limit := cfg.StateLimit(item.state);
      var count := RunningCountForState(item.state);
      if limit > 0 && count >= limit {
        Requeue(now, id, entry, item.identifier, NoSlots);
        return;
      }
      var started := DispatchItem(deps, now, item, entry.attempt, entry.workerHost);
      if !started {
        if id !in retrying {
          Requeue(now, id, entry, item.identifier, NoSlots);
        }
      }
    }

    method HandleDueRetry(deps: Deps, now: int, id: string, nonce: nat)
      modifies this
      ensures Value() == Scheduler.HandleDueRetry(cfg, deps, old(Value()), now, id, nonce)
    {
      if id !in retrying || retrying[id].nonce != nonce {
        return;
      }
      var entry := retrying[id];
      retrying := retrying - {id};
      log := log + [Consumed(id, nonce)];
      var status := RefreshRetryItem(deps, id);
      match status {
        case Missing =>
          claimed := claimed - {id};
          log := log + [Dropped(id)];
        case TerminalItem =>
          claimed := claimed - {id};
          log := log + [Dropped(id)];
          StopWithIntent(id, entry.identifier, None, true);
        case Ineligible =>
          claimed := claimed - {id};
          log := log + [Dropped(id)];
          StopWithIntent(id, entry.identifier, None, false);
        case RetryRefreshFailed =>
          Requeue(now, id, entry, entry.identifier, RefreshFailed);
        case Ready(item) =>
          Redispatch(deps, now, id, entry, item);
      }
    }

    // ----- reconciliation -----

    method ReconcileStalled(deps: Deps, now: int)
      requires WellOrdered(deps)
      modifies this
      ensures Value() == Scheduler.ReconcileStalled(cfg, deps, old(Value()), now)
    {
      if cfg.stallTimeout <= 0 {
        return;
      }
      var runs := running;
      var ids := deps.order(calls, runs.Keys);
      assert Lists(ids, runs.Keys);
      calls := calls + 1;
      for i := 0 to |ids|
        invariant StallEach(cfg, Value(), now, runs, ids[i..])
                  == Scheduler.ReconcileStalled(cfg, deps, old(Value()), now)
      {
        ghost var before := Value();
        var id := ids[i];
        assert id in ids;
        var entry := runs[id];
        assert ids[i..][0] == id && ids[i..][1..] == ids[i + 1..];
        var lastActivity := entry.startedAt;
        if entry.lastEventAt.Some? {
          lastActivity := entry.lastEventAt.value;
        }
        if now - lastActivity > cfg.stallTimeout {
          running := running - {id};
          StopWithIntent(id, entry.item.identifier, entry.handle, false);
          ScheduleFailureRetry(now, id, entry.item.identifier, NextFailureAttempt(entry.attempt),
                               Stalled(now - lastActivity), entry.workerHost, entry.workspacePath);
        }
        assert Value() == if IsStalled(cfg, entry, now) then StallRun(cfg, before, now, id, entry) else before;
      }
    }

    method InvalidateRun(entry: Run, cleanup: bool)
      modifies this
      ensures Value() == Scheduler.InvalidateRun(old(Value()), entry, cleanup)
    {
      running := running - {entry.item.id};
      claimed := claimed - {entry.item.id};
      retrying := retrying - {entry.item.id};
      log := log + [Dropped(entry.item.id)];
      StopWithIntent(entry.item.id, entry.item.identifier, entry.handle, cleanup);
    }

    method IndexById(items: seq<WorkItem>) returns (visible: map<string, WorkItem>)
      ensures visible == ById(items)
    {
      visible := map[];
      for i := 0 to |items|
        invariant visible == ById(items[..i])
      {
        assert items[..i + 1][..i] == items[..i];
        visible := visible[items[i].id := items[i]];
      }
      assert items[..|items|] == items;
    }

    /** One turn of the loop over the cloned running map. */
    method ReconcileOne(visible: map<string, WorkItem>, id: string, entry: Run)
      modifies this
      ensures Value() == Scheduler.ReconcileOne(cfg, old(Value()), visible, id, entry)
    {
      if id !in visible {
        InvalidateRun(entry, false);
        return;
      }
      var item := visible[id];
      if cfg.Terminal(item.state) {
        InvalidateRun(entry, true);
      } else if !cfg.Active(item.state) {
        InvalidateRun(entry, false);
      } else if item.routable == Some(false) {
        InvalidateRun(entry, false);
      } else {
        running := running[id := entry.(item := item)];
      }
    }

    method ReconcileRunning(deps: Deps)
      requires WellOrdered(deps)
      modifies this
      ensures Value() == Scheduler.ReconcileRunning(cfg, deps, old(Value()))
    {
      if running == map[] || deps.refresh.None? {
        return;
      }
      var ids := deps.order(calls, running.Keys);
      var answer := deps.refresh.value(calls + 1, ids);
      ReconcileAnswer(deps, answer);
    }

    /** The part of reconcileRunning after the request; with the walks of the map it makes three calls, or two. */
    method ReconcileAnswer(deps: Deps, answer: Answer<seq<WorkItem>>)
      requires WellOrdered(deps)
      modifies this
      ensures Value() == Scheduler.ReconcileAnswer(cfg, deps, old(Value()), answer)
    {
      if answer.Err? {
        calls := calls + 2;
        return;
      }
      var visible := IndexById(answer.value);
      var runs := running;
      var walk := deps.order(calls + 2, runs.Keys);
      assert Lists(walk, runs.Keys);
      calls := calls + 3;
      ReconcileWalk(visible, runs, walk);
    }

    method ReconcileWalk(visible: map<string, WorkItem>, runs: map<string, Run>, walk: seq<string>)
      requires forall id :: id in walk ==> id in runs
      modifies this
      ensures Value() == ReconcileEach(cfg, old(Value()), visible, runs, walk)
    {
      for i := 0 to |walk|
        invariant ReconcileEach(cfg, Value(), visible, runs, walk[i..])
                  == ReconcileEach(cfg, old(Value()), visible, runs, walk)
      {
        assert walk[i] in walk;
        assert walk[i..][0] == walk[i] && walk[i..][1..] == walk[i + 1..];
        ReconcileOne(visible, walk[i], runs[walk[i]]);
      }
    }

    // ----- snapshot -----

    /** `order` and the two sorts stand for Go's map walks and sort.Slice. */
    method TakeSnapshot(
      deps: Deps, sortRuns: seq<Snapshots.ActiveRun> -> seq<Snapshots.ActiveRun>,
      sortRetries: seq<Snapshots.RetryView> -> seq<Snapshots.RetryView>) returns (snap: Snapshots.Snapshot)
      requires WellOrdered(deps)
      requires forall xs :: SortsTo(xs, sortRuns(xs), Snapshots.RunBefore)
      requires forall xs :: SortsTo(xs, sortRetries(xs), Snapshots.RetryBefore)
      ensures Snapshots.IsSnapshot(cfg, Value(), snap)
    {
      var order := deps.order(calls, running.Keys);
      assert Lists(order, running.Keys);
      var runs: seq<Snapshots.ActiveRun> := [];
      for i := 0 to |order|
        invariant |runs| == i
        invariant forall k :: 0 <= k < i ==> order[k] in running && runs[k] == Snapshots.ViewRun(running[order[k]])
      {
        assert order[i] in order;
        runs := runs + [Snapshots.ViewRun(running[order[i]])];
      }
      assert runs == Snapshots.ViewRuns(running, order);
      var walk := deps.order(calls, retrying.Keys);
      assert Lists(walk, retrying.Keys);
      var retries: seq<Snapshots.RetryView> := [];
      for i := 0 to |walk|
        invariant |retries| == i
        invariant forall k :: 0 <= k < i ==> walk[k] in retrying && retries[k] == Snapshots.ViewRetry(retrying[walk[k]])
      {
        assert walk[i] in walk;
        retries := retries + [Snapshots.ViewRetry(retrying[walk[i]])];
      }
      assert retries == Snapshots.ViewRetries(retrying, walk);
      snap := Snapshots.Snapshot(sortRuns(runs), sortRetries(retries), checking, nextPollAt, cfg.interval, totals, rateLimits);
      assert SortsTo(runs, snap.running, Snapshots.RunBefore);
      assert SortsTo(retries, snap.retrying, Snapshots.RetryBefore);
    }
  }
}
