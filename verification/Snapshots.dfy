/** The snapshot of state.go: sorted lists built by walking Go maps, yet a function of the state alone. */
module Snapshots {
  import opened Text
  import opened Domain
  import opened Scheduler
  import opened Safety
  import opened Ordering

  datatype ActiveRun = ActiveRun(
    itemId: string, identifier: string, state: string, workerHost: string, workspacePath: string,
    sessionId: string, turnCount: int, startedAt: int, lastEventAt: Option<int>,
    lastEventKind: Option<EventKind>, lastEventMessage: string, totals: Totals)

  datatype RetryView = RetryView(
    itemId: string, identifier: string, attempt: int, dueAt: int, cause: Cause,
    workerHost: string, workspacePath: string)

  datatype Snapshot = Snapshot(
    running: seq<ActiveRun>, retrying: seq<RetryView>, checking: bool, nextPollAt: Option<int>,
    interval: int, totals: Totals, rateLimits: Option<RateLimits>)

  function ViewRun(run: Run): ActiveRun {
    ActiveRun(run.item.id, run.item.identifier, run.item.state, run.workerHost, run.workspacePath, run.sessionId,
              run.turnCount, run.startedAt, run.lastEventAt, run.lastEventKind, run.lastEventMessage, run.totals)
  }

  function ViewRetry(entry: Retry): RetryView {
    RetryView(entry.itemId, entry.identifier, entry.attempt, entry.dueAt, entry.cause,
              entry.workerHost, entry.workspacePath)
  }

  predicate RunBefore(a: ActiveRun, b: ActiveRun) {
    if a.identifier != b.identifier then Before(a.identifier, b.identifier)
    else if a.itemId != b.itemId then Before(a.itemId, b.itemId)
    else a.startedAt < b.startedAt
  }

  predicate RetryBefore(a: RetryView, b: RetryView) {
    if a.dueAt != b.dueAt then a.dueAt < b.dueAt
    else if a.identifier != b.identifier then Before(a.identifier, b.identifier)
    else Before(a.itemId, b.itemId)
  }

  /** The entries of a map, projected, in the order it is walked. */
  function ViewRuns(running: map<string, Run>, order: seq<string>): seq<ActiveRun>
    requires forall id :: id in order ==> id in running
  {
    seq(|order|, i requires 0 <= i < |order| => assert order[i] in order; ViewRun(running[order[i]]))
  }

  function ViewRetries(retrying: map<string, Retry>, order: seq<string>): seq<RetryView>
    requires forall id :: id in order ==> id in retrying
  {
    seq(|order|, i requires 0 <= i < |order| => assert order[i] in order; ViewRetry(retrying[order[i]]))
  }

  /** A snapshot some walk over the maps and some sort could have produced. */
  ghost predicate IsSnapshot(cfg: Config, s: State, snap: Snapshot) {
    && (exists order :: Lists(order, s.running.Keys) && SortsTo(ViewRuns(s.running, order), snap.running, RunBefore))
    && (exists order :: Lists(order, s.retrying.Keys)
                        && SortsTo(ViewRetries(s.retrying, order), snap.retrying, RetryBefore))
    && snap.checking == s.checking && snap.nextPollAt == s.nextPollAt && snap.interval == cfg.interval
    && snap.totals == s.totals && snap.rateLimits == s.rateLimits
  }

  /** The running list of a snapshot: exactly the running entries, once each, sorted. */
  lemma RunningListExact(cfg: Config, s: State, order: seq<string>, list: seq<ActiveRun>)
    requires Inv(cfg, s) && Lists(order, s.running.Keys) && SortsTo(ViewRuns(s.running, order), list, RunBefore)
    ensures Distinct(list) && Sorted(list, RunBefore) && ConnectedOn(list, RunBefore)
    ensures forall view :: view in list <==> exists id :: id in s.running && view == ViewRun(s.running[id])
  {
    var views := ViewRuns(s.running, order);
    forall id | id in s.running ensures s.running[id].item.id == id { assert Sound(s, id); }
    forall i | 0 <= i < |order| ensures views[i].itemId == order[i] { assert order[i] in order; }
    PermutationKeeps(views, list);
    forall view ensures view in list <==> exists id :: id in s.running && view == ViewRun(s.running[id]) {
      if view in list {
        var i :| 0 <= i < |views| && views[i] == view;
        assert order[i] in order;
      }
      if id :| id in s.running && view == ViewRun(s.running[id]) {
        assert id in order;
        var i :| 0 <= i < |order| && order[i] == id;
        assert views[i] == view;
      }
    }
    forall a, b | a in list && b in list && a != b ensures RunBefore(a, b) || RunBefore(b, a) {
      BeforeTrichotomy(a.identifier, b.identifier);
      BeforeTrichotomy(a.itemId, b.itemId);
    }
  }

  lemma RetryListExact(cfg: Config, s: State, order: seq<string>, list: seq<RetryView>)
    requires Inv(cfg, s) && Lists(order, s.retrying.Keys) && SortsTo(ViewRetries(s.retrying, order), list, RetryBefore)
    ensures Distinct(list) && Sorted(list, RetryBefore) && ConnectedOn(list, RetryBefore)
    ensures forall view :: view in list <==> exists id :: id in s.retrying && view == ViewRetry(s.retrying[id])
  {
    var views := ViewRetries(s.retrying, order);
    forall id | id in s.retrying ensures s.retrying[id].itemId == id { assert Sound(s, id); }
    forall i | 0 <= i < |order| ensures views[i].itemId == order[i] { assert order[i] in order; }
    PermutationKeeps(views, list);
    forall view ensures view in list <==> exists id :: id in s.retrying && view == ViewRetry(s.retrying[id]) {
      if view in list {
        var i :| 0 <= i < |views| && views[i] == view;
        assert order[i] in order;
      }
      if id :| id in s.retrying && view == ViewRetry(s.retrying[id]) {
        assert id in order;
        var i :| 0 <= i < |order| && order[i] == id;
        assert views[i] == view;
      }
    }
    forall a, b | a in list && b in list && a != b ensures RetryBefore(a, b) || RetryBefore(b, a) {
      BeforeTrichotomy(a.identifier, b.identifier);
      BeforeTrichotomy(a.itemId, b.itemId);
    }
  }

  // ----- field by field -----

  /** The view shows the run, each field under its own name. */
  predicate ShowsRun(view: ActiveRun, run: Run) {
    && view.itemId == run.item.id && view.identifier == run.item.identifier && view.state == run.item.state
    && view.workerHost == run.workerHost && view.workspacePath == run.workspacePath && view.sessionId == run.sessionId
    && view.turnCount == run.turnCount && view.startedAt == run.startedAt && view.lastEventAt == run.lastEventAt
    && view.lastEventKind == run.lastEventKind && view.lastEventMessage == run.lastEventMessage
    && view.totals == run.totals
  }

  predicate ShowsRetry(view: RetryView, entry: Retry) {
    && view.itemId == entry.itemId && view.identifier == entry.identifier && view.attempt == entry.attempt
    && view.dueAt == entry.dueAt && view.cause == entry.cause
    && view.workerHost == entry.workerHost && view.workspacePath == entry.workspacePath
  }

  /** Every running item has its line, and there is no other. */
  ghost predicate RunsListed(running: map<string, Run>, list: seq<ActiveRun>) {
    && (forall id :: id in running ==> exists view :: view in list && ShowsRun(view, running[id]))
    && (forall view :: view in list ==> view.itemId in running && ShowsRun(view, running[view.itemId]))
    && |list| == |running|
  }

  ghost predicate RetriesListed(retrying: map<string, Retry>, list: seq<RetryView>) {
    && (forall id :: id in retrying ==> exists view :: view in list && ShowsRetry(view, retrying[id]))
    && (forall view :: view in list ==> view.itemId in retrying && ShowsRetry(view, retrying[view.itemId]))
    && |list| == |retrying|
  }

  /** Every running item and every queued retry has its own line in the snapshot, and there is no other line. */
  lemma SnapshotShowsAll(cfg: Config, s: State, snap: Snapshot)
    requires Inv(cfg, s) && IsSnapshot(cfg, s, snap)
    ensures RunsListed(s.running, snap.running) && RetriesListed(s.retrying, snap.retrying)
  {
    var i :| Lists(i, s.running.Keys) && SortsTo(ViewRuns(s.running, i), snap.running, RunBefore);
    var k :| Lists(k, s.retrying.Keys) && SortsTo(ViewRetries(s.retrying, k), snap.retrying, RetryBefore);
    RunsShown(cfg, s, i, snap.running);
    RetriesShown(cfg, s, k, snap.retrying);
  }

  lemma RunsShown(cfg: Config, s: State, order: seq<string>, list: seq<ActiveRun>)
    requires Inv(cfg, s) && Lists(order, s.running.Keys) && SortsTo(ViewRuns(s.running, order), list, RunBefore)
    ensures RunsListed(s.running, list)
  {
    RunningListExact(cfg, s, order, list);
    PermutationKeeps(ViewRuns(s.running, order), list);
    WalkLength(order, s.running.Keys);
    forall id | id in s.running ensures exists view :: view in list && ShowsRun(view, s.running[id]) {
      assert ViewRun(s.running[id]) in list;
    }
    forall view | view in list ensures view.itemId in s.running && ShowsRun(view, s.running[view.itemId]) {
      var id :| id in s.running && view == ViewRun(s.running[id]);
      assert Sound(s, id);
    }
  }

  lemma RetriesShown(cfg: Config, s: State, order: seq<string>, list: seq<RetryView>)
    requires Inv(cfg, s) && Lists(order, s.retrying.Keys) && SortsTo(ViewRetries(s.retrying, order), list, RetryBefore)
    ensures RetriesListed(s.retrying, list)
  {
    RetryListExact(cfg, s, order, list);
    PermutationKeeps(ViewRetries(s.retrying, order), list);
    WalkLength(order, s.retrying.Keys);
    forall id | id in s.retrying ensures exists view :: view in list && ShowsRetry(view, s.retrying[id]) {
      assert ViewRetry(s.retrying[id]) in list;
    }
    forall view | view in list ensures view.itemId in s.retrying && ShowsRetry(view, s.retrying[view.itemId]) {
      var id :| id in s.retrying && view == ViewRetry(s.retrying[id]);
      assert Sound(s, id);
    }
  }

  /** The lines are in the order of identifiers, and those of retries in the order they are due. */
  lemma SnapshotOrder(cfg: Config, s: State, snap: Snapshot, i: nat, j: nat)
    requires IsSnapshot(cfg, s, snap) && i < j
    ensures j < |snap.running| ==>
              var a, b := snap.running[i], snap.running[j];
              && !Before(b.identifier, a.identifier)
              && (a.identifier == b.identifier ==> !Before(b.itemId, a.itemId))
    ensures j < |snap.retrying| ==>
              var a, b := snap.retrying[i], snap.retrying[j];
              && a.dueAt <= b.dueAt && (a.dueAt == b.dueAt ==> !Before(b.identifier, a.identifier))
              && (a.dueAt == b.dueAt && a.identifier == b.identifier ==> !Before(b.itemId, a.itemId))
  {
    assert Sorted(snap.running, RunBefore) && Sorted(snap.retrying, RetryBefore);
    if j < |snap.running| {
      var a, b := snap.running[i], snap.running[j];
      if Before(b.identifier, a.identifier) { BeforeAsymmetric(b.identifier, a.identifier); }
      if Before(b.itemId, a.itemId) { BeforeAsymmetric(b.itemId, a.itemId); }
      assert !RunBefore(b, a);
    }
    if j < |snap.retrying| {
      var a, b := snap.retrying[i], snap.retrying[j];
      if Before(b.identifier, a.identifier) { BeforeAsymmetric(b.identifier, a.identifier); }
      if Before(b.itemId, a.itemId) { BeforeAsymmetric(b.itemId, a.itemId); }
      assert !RetryBefore(b, a);
    }
  }

  /** Whatever order the maps are walked in and whatever sort.Slice does with ties, there is one snapshot. */
  lemma SnapshotDetermined(cfg: Config, s: State, a: Snapshot, b: Snapshot)
    requires Inv(cfg, s) && IsSnapshot(cfg, s, a) && IsSnapshot(cfg, s, b)
    ensures a == b
  {
    var i :| Lists(i, s.running.Keys) && SortsTo(ViewRuns(s.running, i), a.running, RunBefore);
    var j :| Lists(j, s.running.Keys) && SortsTo(ViewRuns(s.running, j), b.running, RunBefore);
    RunningListExact(cfg, s, i, a.running);
    RunningListExact(cfg, s, j, b.running);
    SortedUnique(a.running, b.running, RunBefore);
    var k :| Lists(k, s.retrying.Keys) && SortsTo(ViewRetries(s.retrying, k), a.retrying, RetryBefore);
    var l :| Lists(l, s.retrying.Keys) && SortsTo(ViewRetries(s.retrying, l), b.retrying, RetryBefore);
    RetryListExact(cfg, s, k, a.retrying);
    RetryListExact(cfg, s, l, b.retrying);
    SortedUnique(a.retrying, b.retrying, RetryBefore);
  }
}
