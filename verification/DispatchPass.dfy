/** One pass over the candidates: the order they are tried in, and what a refusal means for the rest. */
module DispatchPass {
  import opened Text
  import opened Domain
  import opened Scheduler
  import opened Ordering
  import Hosts

  /** The instant of an item without a creation time: 1 January 9999, in nanoseconds. */
  const FAR_FUTURE: int := 253_370_764_800_000_000_000

  function PriorityRank(priority: Option<int>): int {
    if priority.Some? && 1 <= priority.value <= 4 then priority.value else 5
  }

  function CreatedAtKey(item: WorkItem): int {
    item.createdAt.GetOr(FAR_FUTURE)
  }

  function NameKey(item: WorkItem): string {
    FirstNonEmpty(item.identifier, item.id)
  }

  /** The order of sortCandidates: priority, then age, then name. */
  predicate Sooner(a: WorkItem, b: WorkItem) {
    if PriorityRank(a.priority) != PriorityRank(b.priority) then PriorityRank(a.priority) < PriorityRank(b.priority)
    else if CreatedAtKey(a) != CreatedAtKey(b) then CreatedAtKey(a) < CreatedAtKey(b)
    else Before(NameKey(a), NameKey(b))
  }

  /** Sooner is a strict weak order, so sorting by it is meaningful. */
  lemma SoonerStrict(a: WorkItem, b: WorkItem, c: WorkItem)
    ensures !(Sooner(a, b) && Sooner(b, a))
    ensures Sooner(a, b) && Sooner(b, c) ==> Sooner(a, c)
    ensures !Sooner(a, b) && !Sooner(b, c) ==> !Sooner(a, c)
  {
    var x, y, z := NameKey(a), NameKey(b), NameKey(c);
    if Before(x, y) { BeforeAsymmetric(x, y); }
    if Before(x, y) && Before(y, z) { BeforeTransitive(x, y, z); }
    BeforeTrichotomy(x, y);
    BeforeTrichotomy(y, z);
    if Before(x, z) { BeforeAsymmetric(x, z); }
    if Before(z, y) && Before(y, x) { BeforeTransitive(z, y, x); }
  }

  // ----- the order, from the items' own fields -----

  /** A priority from 1 to 4 comes before every larger one, before one out of range, and before none. */
  lemma UrgentFirst(a: WorkItem, b: WorkItem, p: int)
    requires a.priority == Some(p) && 1 <= p <= 4
    requires b.priority.None? || b.priority.value < 1 || b.priority.value > p
    ensures Sooner(a, b) && !Sooner(b, a)
  {
  }

  /** Both have the same priority from 1 to 4, or neither has one. */
  predicate EquallyUrgent(a: WorkItem, b: WorkItem) {
    a.priority == b.priority
    || ((a.priority.None? || a.priority.value < 1 || a.priority.value > 4)
        && (b.priority.None? || b.priority.value < 1 || b.priority.value > 4))
  }

  /** Among equally urgent items the older one comes first, and any created before the year 9999 before one without a date. */
  lemma OlderFirst(a: WorkItem, b: WorkItem, created: int)
    requires EquallyUrgent(a, b) && a.createdAt == Some(created)
    requires if b.createdAt.Some? then created < b.createdAt.value else created < 253_370_764_800_000_000_000
    ensures Sooner(a, b) && !Sooner(b, a)
  {
  }

  /** Among items of the same age the identifiers decide, or the IDs of items without one. */
  lemma NamesDecide(a: WorkItem, b: WorkItem, x: string, y: string)
    requires EquallyUrgent(a, b) && a.createdAt == b.createdAt && !IsBlank(a.id) && !IsBlank(b.id)
    requires x == (if IsBlank(a.identifier) then a.id else a.identifier)
    requires y == (if IsBlank(b.identifier) then b.id else b.identifier)
    ensures Sooner(a, b) <==> Before(x, y)
  {
  }

  /** What the fields say about two candidates of which `b` is tried after `a`. */
  ghost predicate InOrder(a: WorkItem, b: WorkItem) {
    && (forall q :: b.priority == Some(q) && 1 <= q <= 4 ==>
          a.priority.Some? && 1 <= a.priority.value <= q)
    && (EquallyUrgent(a, b) && a.createdAt.Some? && b.createdAt.Some? ==> a.createdAt.value <= b.createdAt.value)
    && (EquallyUrgent(a, b) && b.createdAt.Some? && b.createdAt.value < 253_370_764_800_000_000_000 ==> a.createdAt.Some?)
    && (EquallyUrgent(a, b) && a.createdAt == b.createdAt && !IsBlank(a.id) && !IsBlank(b.id) ==>
          !Before(if IsBlank(b.identifier) then b.id else b.identifier,
                  if IsBlank(a.identifier) then a.id else a.identifier))
  }

  lemma SortedByFields(tried: seq<WorkItem>, i: nat, j: nat)
    requires Sorted(tried, Sooner) && i < j < |tried|
    ensures InOrder(tried[i], tried[j])
  {
    var a, b := tried[i], tried[j];
    assert !Sooner(b, a);
    forall q | b.priority == Some(q) && 1 <= q <= 4 ensures a.priority.Some? && 1 <= a.priority.value <= q {
      if a.priority.None? || a.priority.value < 1 || a.priority.value > q { UrgentFirst(b, a, q); }
    }
    if EquallyUrgent(a, b) && b.createdAt.Some? {
      if a.createdAt.Some? && b.createdAt.value < a.createdAt.value { OlderFirst(b, a, b.createdAt.value); }
      if a.createdAt.None? && b.createdAt.value < 253_370_764_800_000_000_000 { OlderFirst(b, a, b.createdAt.value); }
    }
    if EquallyUrgent(a, b) && a.createdAt == b.createdAt && !IsBlank(a.id) && !IsBlank(b.id) {
      NamesDecide(b, a, if IsBlank(b.identifier) then b.id else b.identifier,
                  if IsBlank(a.identifier) then a.id else a.identifier);
    }
  }

  /** One way to sort candidates. */
  function SortSooner(items: seq<WorkItem>): seq<WorkItem> {
    InsertionSort(items, Sooner)
  }

  lemma SortSoonerSorts(items: seq<WorkItem>)
    ensures SortsTo(items, SortSooner(items), Sooner)
  {
    forall a, b, c ensures !(Sooner(a, b) && Sooner(b, a)) && (!Sooner(a, b) && !Sooner(b, c) ==> !Sooner(a, c)) {
      SoonerStrict(a, b, c);
    }
    InsertionSortSorts(items, Sooner);
  }

  /** sort.Slice on candidates returns some permutation in order. */
  ghost predicate SortsCandidates(deps: Deps) {
    forall n: nat, items: seq<WorkItem> :: SortsTo(items, deps.sort(n, items), Sooner)
  }

  /** Every configured host is at its limit. */
  predicate HostsFull(deps: Deps, running: map<string, Run>) {
    deps.hosts.Some?
    && Hosts.Configured(deps.hosts.value.hosts) != []
    && forall h :: h in Hosts.Configured(deps.hosts.value.hosts) ==>
         !Hosts.Eligible(deps.hosts.value, HostCount(running), h)
  }

  predicate Full(cfg: Config, deps: Deps, s: State) {
    AtGlobalLimit(cfg, s) || HostsFull(deps, s.running)
  }

  /** The candidate is turned away for a limit the whole pass shares. */
  predicate Refused(cfg: Config, deps: Deps, s: State, item: WorkItem) {
    AtGlobalLimit(cfg, s)
    || (deps.hosts.Some? && ShouldDispatch(cfg, s, item)
        && var (called, refreshed) := RevalidateCandidate(cfg, deps, s, item.id);
           refreshed.Some? && AdmitHost(deps, called, "").1.None?)
  }

  /** Nothing but the number of dependency calls differs. */
  predicate OnlyCalls(s: State, t: State) {
    t == s.(calls := t.calls)
  }

  lemma FullHostsAdmitNothing(deps: Deps, s: State, preferred: string)
    requires HostsFull(deps, s.running)
    ensures AdmitHost(deps, s, preferred) == (s, None)
  {
    Hosts.RefusedMeansFull(deps.hosts.value, preferred, HostCount(s.running));
  }

  lemma FullRefuses(cfg: Config, deps: Deps, s: State, now: int, item: WorkItem)
    requires Full(cfg, deps, s)
    ensures OnlyCalls(s, TryCandidate(cfg, deps, s, now, item))
  {
    if ShouldDispatch(cfg, s, item) {
      var (called, refreshed) := RevalidateCandidate(cfg, deps, s, item.id);
      assert OnlyCalls(s, called);
      FullHostsAdmitNothing(deps, called, "");
    }
  }

  lemma RefusalMeansFull(cfg: Config, deps: Deps, s: State, item: WorkItem)
    requires Refused(cfg, deps, s, item)
    ensures Full(cfg, deps, s)
  {
    if deps.hosts.Some? {
      Hosts.RefusedMeansFull(deps.hosts.value, "", HostCount(s.running));
    }
  }

  lemma {:induction false} FullStartsNothing(cfg: Config, deps: Deps, s: State, now: int, items: seq<WorkItem>)
    requires Full(cfg, deps, s)
    ensures OnlyCalls(s, TryCandidates(cfg, deps, s, now, items))
    decreases |items|
  {
    if items != [] {
      var t := TryCandidate(cfg, deps, s, now, items[0]);
      FullRefuses(cfg, deps, s, now, items[0]);
      FullStartsNothing(cfg, deps, t, now, items[1..]);
    }
  }

  lemma {:induction false} TrySplit(
    cfg: Config, deps: Deps, s: State, now: int, first: seq<WorkItem>, rest: seq<WorkItem>)
    ensures TryCandidates(cfg, deps, s, now, first + rest)
            == TryCandidates(cfg, deps, TryCandidates(cfg, deps, s, now, first), now, rest)
    decreases |first|
  {
    if first == [] {
      assert first + rest == rest;
    } else {
      assert (first + rest)[1..] == first[1..] + rest;
      TrySplit(cfg, deps, TryCandidate(cfg, deps, s, now, first[0]), now, first[1..], rest);
    }
  }

  lemma RefusalStopsPass(cfg: Config, deps: Deps, s: State, now: int, item: WorkItem, rest: seq<WorkItem>)
    requires Refused(cfg, deps, s, item)
    ensures OnlyCalls(s, TryCandidates(cfg, deps, s, now, rest))
  {
    RefusalMeansFull(cfg, deps, s, item);
    FullStartsNothing(cfg, deps, s, now, rest);
  }

  /** The state in which the k-th candidate of the sorted list is tried. */
  function Reached(cfg: Config, deps: Deps, s: State, now: int, candidates: seq<WorkItem>, k: nat): State
    requires k <= |deps.sort(s.calls, candidates)|
  {
    TryCandidates(cfg, deps, s.(calls := s.calls + 1), now, deps.sort(s.calls, candidates)[..k])
  }

  lemma PassFrom(cfg: Config, deps: Deps, s: State, now: int, candidates: seq<WorkItem>, k: nat)
    requires k <= |deps.sort(s.calls, candidates)|
    ensures ProcessCandidates(cfg, deps, s, now, candidates)
            == TryCandidates(cfg, deps, Reached(cfg, deps, s, now, candidates, k), now,
                             deps.sort(s.calls, candidates)[k..])
  {
    var tried := deps.sort(s.calls, candidates);
    assert tried == tried[..k] + tried[k..];
    TrySplit(cfg, deps, s.(calls := s.calls + 1), now, tried[..k], tried[k..]);
  }

  /**
   No priority inversion: the pass tries the candidates in a permutation in which none comes after one of a
   larger priority number, or after an equally urgent younger one; and once one is refused for the global limit
   or by host admission, neither it nor any later candidate is started, claimed or queued.
   */
  lemma NoPriorityInversion(cfg: Config, deps: Deps, s: State, now: int, candidates: seq<WorkItem>, k: nat)
    requires SortsCandidates(deps) && k < |deps.sort(s.calls, candidates)|
    requires Refused(cfg, deps, Reached(cfg, deps, s, now, candidates, k), deps.sort(s.calls, candidates)[k])
    ensures SortsTo(candidates, deps.sort(s.calls, candidates), Sooner)
    ensures forall i, j :: 0 <= i < j < |deps.sort(s.calls, candidates)| ==>
              InOrder(deps.sort(s.calls, candidates)[i], deps.sort(s.calls, candidates)[j])
    ensures OnlyCalls(Reached(cfg, deps, s, now, candidates, k), ProcessCandidates(cfg, deps, s, now, candidates))
  {
    var tried := deps.sort(s.calls, candidates);
    forall i, j | 0 <= i < j < |tried| ensures InOrder(tried[i], tried[j]) { SortedByFields(tried, i, j); }
    PassFrom(cfg, deps, s, now, candidates, k);
    RefusalStopsPass(cfg, deps, Reached(cfg, deps, s, now, candidates, k), now, tried[k], tried[k..]);
  }
}
