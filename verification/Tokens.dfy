/** Token conservation: the aggregate against a sum taken run by run over the history. */
module Tokens {
  import opened Domain
  import opened Scheduler
  import opened Lifecycle
  import opened Safety
  import opened Service
  import opened ServiceSafety
  import opened Runs

  datatype Meter = Input | Output | Total | Seconds

  function Read(totals: Totals, meter: Meter): int {
    match meter
    case Input => totals.input
    case Output => totals.output
    case Total => totals.total
    case Seconds => totals.seconds
  }

  predicate Ended(log: seq<Action>, i: nat)
    requires i < |log|
  {
    exists k :: i < k < |log| && IsLeave(log[k], log[i].id)
  }

  /** What the run started at position i reported until it left `running`. */
  function Reports(log: seq<Action>, i: nat): seq<Totals>
    requires i < |log|
    decreases |log|
  {
    if i == |log| - 1 then []
    else
      var before, last := log[..|log| - 1], log[|log| - 1];
      Reports(before, i)
      + (if last.Reported? && last.id == log[i].id && !Ended(before, i) then [last.totals] else [])
  }

  function Latest(reports: seq<Totals>): Totals {
    if reports == [] then NO_TOTALS else reports[|reports| - 1]
  }

  /** The positive increments of a run's successive reports. */
  function Increments(reports: seq<Totals>, meter: Meter): int {
    if reports == [] then 0
    else
      var before := reports[..|reports| - 1];
      Increments(before, meter) + Increase(Read(Latest(before), meter), Read(Latest(reports), meter))
  }

  predicate IsRun(log: seq<Action>, i: nat)
    requires i < |log|
  {
    IsStart(log[i], log[i].id)
  }

  /** The increments of all runs among the first n actions. */
  function Spent(log: seq<Action>, meter: Meter, n: nat): int
    requires n <= |log|
  {
    if n == 0 then 0
    else Spent(log, meter, n - 1) + (if IsRun(log, n - 1) then Increments(Reports(log, n - 1), meter) else 0)
  }

  predicate Accepted(log: seq<Action>) {
    forall k :: 0 <= k < |log| ==> !PhaseOf(log, log[k].id).Bad?
  }

  lemma AcceptedPrefix(log: seq<Action>)
    requires log != [] && Accepted(log)
    ensures Accepted(log[..|log| - 1])
  {
    var before := log[..|log| - 1];
    forall k | 0 <= k < |before| ensures !PhaseOf(before, before[k].id).Bad? {
      assert before[k] == log[k];
    }
  }

  /** A running item's mark is the latest report of the run that its last start began. */
  lemma {:induction false} MarkIsLatest(log: seq<Action>, i: nat)
    requires i < |log| && Accepted(log) && IsRun(log, i) && !Ended(log, i) && PhaseOf(log, log[i].id).Running?
    ensures PhaseOf(log, log[i].id).reported == Latest(Reports(log, i))
    decreases |log|
  {
    var id, before, last := log[i].id, log[..|log| - 1], log[|log| - 1];
    if i < |log| - 1 {
      if IsStart(last, id) {
        StartsAreSeparated(log, i, |log| - 1, id);
      } else {
        AcceptedPrefix(log);
        forall k | i < k < |before| ensures !IsLeave(before[k], id) { assert before[k] == log[k]; }
        assert before[i] == log[i];
        MarkIsLatest(before, i);
      }
    }
  }

  /** At most one run of an item has not ended. */
  lemma OneOpenRun(log: seq<Action>, i: nat, j: nat)
    requires i < |log| && j < |log| && Accepted(log) && log[i].id == log[j].id
    requires IsRun(log, i) && IsRun(log, j) && !Ended(log, i) && !Ended(log, j)
    ensures i == j
  {
    if i < j {
      StartsAreSeparated(log, i, j, log[i].id);
    } else if j < i {
      StartsAreSeparated(log, j, i, log[i].id);
    }
  }

  lemma {:induction false} OpenRunOf(log: seq<Action>, id: string) returns (i: nat)
    requires PhaseOf(log, id).Running?
    ensures i < |log| && IsRun(log, i) && log[i].id == id && !Ended(log, i)
  {
    i := StartBehindRunning(log, id);
  }

  /** What an action adds to the increments of the run started at i. */
  function Added(log: seq<Action>, action: Action, i: nat, meter: Meter): int
    requires i < |log|
  {
    if action.Reported? && action.id == log[i].id && !Ended(log, i)
    then Increase(Read(Latest(Reports(log, i)), meter), Read(action.totals, meter)) else 0
  }

  lemma ReportsSnoc(log: seq<Action>, action: Action, i: nat, meter: Meter)
    requires i < |log|
    ensures Increments(Reports(log + [action], i), meter) == Increments(Reports(log, i), meter) + Added(log, action, i, meter)
  {
    var longer, reports := log + [action], Reports(log, i);
    assert longer[..|longer| - 1] == log && longer[i] == log[i];
    if action.Reported? && action.id == log[i].id && !Ended(log, i) {
      assert Reports(longer, i) == reports + [action.totals];
      assert (reports + [action.totals])[..|reports|] == reports;
    } else {
      assert Reports(longer, i) == reports + [] == reports;
    }
  }

  lemma {:induction false} SpentSnoc(log: seq<Action>, action: Action, meter: Meter, n: nat)
    requires n <= |log|
    ensures Spent(log + [action], meter, n) == Spent(log, meter, n) + SumAdded(log, action, meter, n)
  {
    if n > 0 {
      SpentSnoc(log, action, meter, n - 1);
      assert (log + [action])[n - 1] == log[n - 1];
      ReportsSnoc(log, action, n - 1, meter);
    }
  }

  function SumAdded(log: seq<Action>, action: Action, meter: Meter, n: nat): int
    requires n <= |log|
  {
    if n == 0 then 0
    else SumAdded(log, action, meter, n - 1) + (if IsRun(log, n - 1) then Added(log, action, n - 1, meter) else 0)
  }

  lemma {:induction false} OnlyOpenRunAdds(log: seq<Action>, action: Action, meter: Meter, n: nat, i: nat)
    requires n <= |log| && i < |log| && Accepted(log) && action.Reported?
    requires IsRun(log, i) && !Ended(log, i) && log[i].id == action.id
    ensures SumAdded(log, action, meter, n) == if i < n then Added(log, action, i, meter) else 0
  {
    if n > 0 {
      OnlyOpenRunAdds(log, action, meter, n - 1, i);
      if IsRun(log, n - 1) && log[n - 1].id == action.id && !Ended(log, n - 1) {
        OneOpenRun(log, n - 1, i);
      }
    }
  }

  lemma {:induction false} NothingAdds(log: seq<Action>, action: Action, meter: Meter, n: nat)
    requires n <= |log| && !action.Reported?
    ensures SumAdded(log, action, meter, n) == 0
  {
    if n > 0 {
      NothingAdds(log, action, meter, n - 1);
    }
  }

  /** The fold the scheduler keeps up to date is the sum over runs, for every history it accepts. */
  lemma {:induction false} TallyIsSpent(log: seq<Action>, meter: Meter)
    requires Accepted(log)
    ensures Read(Tally(log), meter) == Spent(log, meter, |log|)
    decreases |log|
  {
    if log != [] {
      var before, last := log[..|log| - 1], log[|log| - 1];
      assert log == before + [last];
      AcceptedPrefix(log);
      TallyIsSpent(before, meter);
      SpentSnoc(before, last, meter, |before|);
      if last.Reported? {
        assert PhaseOf(before, last.id).Running?;
        var i := OpenRunOf(before, last.id);
        OnlyOpenRunAdds(before, last, meter, |before|, i);
        MarkIsLatest(before, i);
      } else {
        NothingAdds(before, last, meter, |before|);
      }
    }
  }

  /** Over every run of the service, each aggregate field is the sum of the increments each run reported. */
  lemma TokensConserved(cfg: Config, deps: Deps, start: int, inputs: seq<Service.Input>, meter: Meter)
    requires Environment(deps)
    ensures var s := After(cfg, deps, start, inputs).state;
            Read(s.totals, meter) == Spent(s.log, meter, |s.log|)
  {
    AfterSound(cfg, deps, start, inputs);
    TallyIsSpent(After(cfg, deps, start, inputs).state.log, meter);
  }

  lemma {:induction false} TallyGrows(log: seq<Action>, n: nat, meter: Meter)
    requires n <= |log|
    ensures Read(Tally(log[..n]), meter) <= Read(Tally(log), meter)
    decreases |log|
  {
    if n < |log| {
      assert log[..|log| - 1][..n] == log[..n];
      TallyGrows(log[..|log| - 1], n, meter);
    } else {
      assert log[..n] == log;
    }
  }

  /** Reports that never fall back: each at least the one before, the first at least zero. */
  predicate Rising(reports: seq<Totals>, meter: Meter) {
    forall k :: 0 <= k < |reports| ==> Read(Latest(reports[..k]), meter) <= Read(reports[k], meter)
  }

  /** The increments of a run whose reports never fall back add up to its final report. */
  lemma {:induction false} RisingReportsSumToLast(reports: seq<Totals>, meter: Meter)
    requires Rising(reports, meter)
    ensures Increments(reports, meter) == Read(Latest(reports), meter)
  {
    if reports != [] {
      var before := reports[..|reports| - 1];
      forall k | 0 <= k < |before| ensures Read(Latest(before[..k]), meter) <= Read(before[k], meter) {
        assert before[..k] == reports[..k];
      }
      RisingReportsSumToLast(before, meter);
    }
  }

  /** The final reports of all runs among the first n actions. */
  function FinalReports(log: seq<Action>, meter: Meter, n: nat): int
    requires n <= |log|
  {
    if n == 0 then 0
    else FinalReports(log, meter, n - 1) + (if IsRun(log, n - 1) then Read(Latest(Reports(log, n - 1)), meter) else 0)
  }

  lemma {:induction false} SpentIsFinal(log: seq<Action>, meter: Meter, n: nat)
    requires n <= |log|
    requires forall i :: 0 <= i < n && IsRun(log, i) ==> Rising(Reports(log, i), meter)
    ensures Spent(log, meter, n) == FinalReports(log, meter, n)
  {
    if n > 0 {
      SpentIsFinal(log, meter, n - 1);
      if IsRun(log, n - 1) {
        RisingReportsSumToLast(Reports(log, n - 1), meter);
      }
    }
  }

  /** When no run's reports fall back, the aggregate is the sum of the runs' final reports. */
  lemma TotalsAreFinalReports(cfg: Config, deps: Deps, start: int, inputs: seq<Service.Input>, meter: Meter)
    requires Environment(deps)
    requires var log := After(cfg, deps, start, inputs).state.log;
             forall i :: 0 <= i < |log| && IsRun(log, i) ==> Rising(Reports(log, i), meter)
    ensures var s := After(cfg, deps, start, inputs).state;
            Read(s.totals, meter) == FinalReports(s.log, meter, |s.log|)
  {
    TokensConserved(cfg, deps, start, inputs, meter);
    var log := After(cfg, deps, start, inputs).state.log;
    SpentIsFinal(log, meter, |log|);
  }

  lemma {:induction false} LogOnlyGrows(cfg: Config, deps: Deps, sv: ServiceState, inputs: seq<Service.Input>)
    requires ServiceInv(cfg, sv) && Environment(deps)
    ensures sv.state.log <= RunFrom(cfg, deps, sv, inputs).state.log
    decreases |inputs|
  {
    if inputs != [] {
      StepLogGrows(cfg, deps, sv, inputs[0]);
      StepSound(cfg, deps, sv, inputs[0]);
      LogOnlyGrows(cfg, deps, Step(cfg, deps, sv, inputs[0]), inputs[1..]);
    }
  }

  lemma StepLogGrows(cfg: Config, deps: Deps, sv: ServiceState, input: Service.Input)
    requires ServiceInv(cfg, sv) && Environment(deps)
    ensures sv.state.log <= Step(cfg, deps, sv, input).state.log
  {
    match input
    case Deliver(t, now) =>
      if t in sv.timers && sv.timers[t].expired {
        CallLogGrows(cfg, deps, sv.(timers := sv.timers - {t}), now, sv.timers[t].call);
      }
    case Event(event, now) =>
      ServiceSafety.Frames.ApplyRunEventEvolves(cfg, sv.state, now, event);
      SyncKeeps(deps, sv.(state := ApplyRunEvent(cfg, sv.state, now, event)), now);
    case CloseService => CloseKeeps(deps, sv);
    case _ =>
  }

  lemma CycleLogGrows(cfg: Config, deps: Deps, sv: ServiceState, now: int, nonce: nat)
    requires Inv(cfg, sv.state) && Environment(deps)
    ensures sv.state.log <= HandlePollCycle(cfg, deps, sv, now, nonce).state.log
  {
    CycleStateSound(cfg, deps, sv.state, now);
    SyncKeeps(deps, sv.(state := CycleState(cfg, deps, sv.state, now)), now);
  }

  lemma RetryLogGrows(cfg: Config, deps: Deps, sv: ServiceState, now: int, id: string, nonce: nat)
    requires WellOrdered(deps)
    ensures sv.state.log <= HandleRetryTick(cfg, deps, sv, now, id, nonce).state.log
  {
    ServiceSafety.Frames.HandleDueRetryEvolves(cfg, deps, sv.state, now, id, nonce);
    var forgotten :=
      if id in sv.retryTimers && sv.retryTimers[id].nonce == nonce
      then sv.(retryTimers := sv.retryTimers - {id}) else sv;
    SyncKeeps(deps, forgotten.(state := HandleDueRetry(cfg, deps, sv.state, now, id, nonce)), now);
  }

  lemma CallLogGrows(cfg: Config, deps: Deps, sv: ServiceState, now: int, call: Callback)
    requires Inv(cfg, sv.state) && Environment(deps)
    ensures sv.state.log <= Call(cfg, deps, sv, now, call).state.log
  {
    match call
    case Tick(_) =>
    case Cycle(nonce) => CycleLogGrows(cfg, deps, sv, now, nonce);
    case RetryTick(id, nonce) => RetryLogGrows(cfg, deps, sv, now, id, nonce);
  }

  /** No step ever lowers the aggregate. */
  lemma TotalsNeverDecrease(
    cfg: Config, deps: Deps, sv: ServiceState, inputs: seq<Service.Input>, meter: Meter)
    requires ServiceInv(cfg, sv) && Environment(deps)
    ensures Read(sv.state.totals, meter) <= Read(RunFrom(cfg, deps, sv, inputs).state.totals, meter)
  {
    LogOnlyGrows(cfg, deps, sv, inputs);
    RunSound(cfg, deps, sv, inputs);
    var log := RunFrom(cfg, deps, sv, inputs).state.log;
    TallyGrows(log, |sv.state.log|, meter);
    assert log[..|sv.state.log|] == sv.state.log;
  }
}
