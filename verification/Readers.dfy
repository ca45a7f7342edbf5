/**
 Refreshing items by ID: the memory reader (internal/trackers/memory/reader.go), and the Linear reader
 (internal/trackers/linear/reader.go), which batches its requests and restores the order afterwards.
 */
module Readers {
  import opened Text
  import opened Domain
  import opened Ordering
  import Scheduler
  import Safety

  // ----- in-order lookup -----

  /** The items found for the IDs, in the order of the IDs. */
  function InOrder(index: map<string, WorkItem>, ids: seq<string>): seq<WorkItem>
    decreases |ids|
  {
    if ids == [] then []
    else (if ids[0] in index then [index[ids[0]]] else []) + InOrder(index, ids[1..])
  }

  ghost predicate Keyed(index: map<string, WorkItem>) {
    forall id :: id in index ==> index[id].id == id
  }

  /** x is the item visible under one of the IDs. */
  predicate Found(index: map<string, WorkItem>, ids: seq<string>, x: WorkItem) {
    x.id in ids && x.id in index && index[x.id] == x
  }

  lemma {:induction false} InOrderAppend(index: map<string, WorkItem>, a: seq<string>, b: seq<string>)
    ensures InOrder(index, a + b) == InOrder(index, a) + InOrder(index, b)
    decreases |a|
  {
    if a == [] {
      assert a + b == b;
    } else {
      assert (a + b)[1..] == a[1..] + b;
      InOrderAppend(index, a[1..], b);
    }
  }

  lemma {:induction false} InOrderFinds(index: map<string, WorkItem>, ids: seq<string>, x: WorkItem)
    requires Keyed(index)
    ensures x in InOrder(index, ids) <==> Found(index, ids, x)
    decreases |ids|
  {
    if ids != [] {
      InOrderFinds(index, ids[1..], x);
      assert ids == [ids[0]] + ids[1..];
    }
  }

  // ----- the memory reader -----

  class MemoryReader {
    const items: seq<WorkItem>

    constructor (items: seq<WorkItem>)
      ensures this.items == items
    {
      this.items := items;
    }

    method Index() returns (index: map<string, WorkItem>)
      ensures index == SeedIndex(items)
    {
      index := map[];
      for n := 0 to |items|
        invariant index == SeedIndex(items[..n])
      {
        assert items[..n + 1][..n] == items[..n];
        index := index[items[n].id := items[n]];
      }
      assert items[..|items|] == items;
    }

    method RefreshByIDs(ids: seq<string>) returns (refreshed: seq<WorkItem>)
      ensures refreshed == InOrder(SeedIndex(items), ids)
    {
      if ids == [] {
        return [];
      }
      var index := Index();
      refreshed := [];
      for n := 0 to |ids|
        invariant refreshed == InOrder(index, ids[..n])
      {
        assert ids[..n + 1] == ids[..n] + [ids[n]];
        InOrderAppend(index, ids[..n], [ids[n]]);
        if ids[n] in index {
          refreshed := refreshed + [index[ids[n]]];
        }
      }
      assert ids[..|ids|] == ids;
    }
  }

  /** The map the memory reader builds from its seeded items. */
  function SeedIndex(items: seq<WorkItem>): map<string, WorkItem> {
    if items == [] then map[]
    else
      var last := items[|items| - 1];
      SeedIndex(items[..|items| - 1])[last.id := last]
  }

  /** It holds exactly the seeded IDs, and under each the last item with that ID. */
  lemma {:induction false} SeedIndexHoldsLast(items: seq<WorkItem>, id: string)
    ensures id in SeedIndex(items) ==>
              exists i :: 0 <= i < |items| && IsLastWith(items, i, id) && SeedIndex(items)[id] == items[i]
    ensures id !in SeedIndex(items) ==> forall i :: 0 <= i < |items| ==> items[i].id != id
  {
    if items != [] {
      var n := |items| - 1;
      var before := items[..n];
      if items[n].id == id {
        assert IsLastWith(items, n, id);
      } else {
        SeedIndexHoldsLast(before, id);
        if id in SeedIndex(before) {
          var i :| 0 <= i < n && IsLastWith(before, i, id) && SeedIndex(before)[id] == before[i];
          LastStays(items, i, id);
        } else {
          forall i | 0 <= i < |items| ensures items[i].id != id {
            assert i < n ==> items[i] == before[i];
          }
        }
      }
    }
  }

  predicate IsLastWith(items: seq<WorkItem>, i: nat, id: string)
    requires i < |items|
  {
    items[i].id == id && forall j :: i < j < |items| ==> items[j].id != id
  }

  lemma LastStays(items: seq<WorkItem>, i: nat, id: string)
    requires i < |items| - 1 && IsLastWith(items[..|items| - 1], i, id) && items[|items| - 1].id != id
    ensures IsLastWith(items, i, id)
  {
    var before := items[..|items| - 1];
    forall j | i < j < |items| ensures items[j].id != id {
      assert j < |before| ==> items[j] == before[j];
    }
  }

  lemma SeedIndexKeyed(items: seq<WorkItem>)
    ensures Keyed(SeedIndex(items))
  {
    forall id | id in SeedIndex(items) ensures SeedIndex(items)[id].id == id {
      SeedIndexHoldsLast(items, id);
    }
  }

  // ----- trimming and deduplicating -----

  /** The IDs trimmed, without blanks and repetitions, each where it first occurs. */
  function Normalized(values: seq<string>): seq<string> {
    if values == [] then []
    else
      var before, id := Normalized(values[..|values| - 1]), Trim(values[|values| - 1]);
      if id == "" || id in before then before else before + [id]
  }

  method NormalizeIDs(values: seq<string>) returns (normalized: seq<string>)
    ensures normalized == Normalized(values)
  {
    normalized := [];
    var seen: set<string> := {};
    for n := 0 to |values|
      invariant normalized == Normalized(values[..n])
      invariant forall id :: id in seen <==> id in normalized
    {
      assert values[..n + 1][..n] == values[..n];
      var id := Trim(values[n]);
      if id != "" && id !in seen {
        seen := seen + {id};
        normalized := normalized + [id];
      }
    }
    assert values[..|values|] == values;
  }

  lemma {:induction false} NormalizedContent(values: seq<string>)
    ensures Distinct(Normalized(values))
    ensures forall id :: id in Normalized(values) <==> id != "" && exists i :: 0 <= i < |values| && Trim(values[i]) == id
  {
    if values != [] {
      var n := |values| - 1;
      NormalizedContent(values[..n]);
      forall id ensures id in Normalized(values) <==> id != "" && exists i :: 0 <= i < |values| && Trim(values[i]) == id {
        if id != "" && Trim(values[n]) != id && exists i :: 0 <= i < |values| && Trim(values[i]) == id {
          var i :| 0 <= i < |values| && Trim(values[i]) == id;
          assert values[..n][i] == values[i];
        }
        if id in Normalized(values[..n]) {
          var i :| 0 <= i < n && Trim(values[..n][i]) == id;
          assert Trim(values[i]) == id;
        }
      }
    }
  }

  /** Trimmed and distinct IDs are left alone; so normalizing twice is normalizing once. */
  lemma {:induction false} NormalizedFixed(ids: seq<string>)
    requires Distinct(ids) && forall i :: 0 <= i < |ids| ==> ids[i] != "" && Trim(ids[i]) == ids[i]
    ensures Normalized(ids) == ids
  {
    if ids != [] {
      var n := |ids| - 1;
      NormalizedFixed(ids[..n]);
      assert ids == ids[..n] + [ids[n]];
    }
  }

  /** The text occurs, trimmed, at position i, and before it neither itself nor the other does. */
  predicate OccursBefore(values: seq<string>, id: string, other: string, i: nat) {
    i < |values| && Trim(values[i]) == id && forall j :: 0 <= j < i ==> Trim(values[j]) != other
  }

  /** An ID comes before another exactly where it occurs first. */
  lemma {:induction false} NormalizedInOrder(values: seq<string>, p: nat, q: nat)
    requires p < q < |Normalized(values)|
    ensures exists i: nat :: OccursBefore(values, Normalized(values)[p], Normalized(values)[q], i)
    decreases |values|
  {
    var n := |values| - 1;
    var before, ids := Normalized(values[..n]), Normalized(values);
    NormalizedContent(values[..n]);
    if q < |before| {
      NormalizedInOrder(values[..n], p, q);
      var i: nat :| OccursBefore(values[..n], before[p], before[q], i);
      assert OccursBefore(values, ids[p], ids[q], i);
    } else {
      assert ids[p] in before && ids[q] !in before;
      var i :| 0 <= i < n && Trim(values[..n][i]) == ids[p];
      assert forall j :: 0 <= j < n ==> Trim(values[..n][j]) == Trim(values[j]);
      assert OccursBefore(values, ids[p], ids[q], i);
    }
  }

  lemma NormalizedIdempotent(values: seq<string>)
    ensures Normalized(Normalized(values)) == Normalized(values)
  {
    var ids := Normalized(values);
    NormalizedContent(values);
    forall i | 0 <= i < |ids| ensures ids[i] != "" && Trim(ids[i]) == ids[i] {
      assert ids[i] in ids;
      var k :| 0 <= k < |values| && Trim(values[k]) == ids[i];
      TrimIdempotent(values[k]);
    }
    NormalizedFixed(ids);
  }

  // ----- the Linear reader -----

  const PAGE_SIZE := 50

  /** Query and decoding, answering the n-th request; it may fail. */
  datatype Server = Server(answer: (nat, seq<string>) -> Answer<seq<WorkItem>>)

  /** Asked for distinct IDs, the server answers with the visible ones among them, in any order, or fails. */
  ghost predicate Serves(server: Server, visible: map<string, WorkItem>) {
    forall n: nat, batch: seq<string> :: Distinct(batch) && server.answer(n, batch).Ok? ==>
      AnswersBatch(visible, batch, server.answer(n, batch).value)
  }

  ghost predicate AnswersBatch(visible: map<string, WorkItem>, ids: seq<string>, items: seq<WorkItem>) {
    Distinct(items) && forall x :: x in items <==> Found(visible, ids, x)
  }

  function OrderIndex(id: string, order: map<string, int>): int {
    if id in order then order[id] else |order|
  }

  function ByIndex(order: map<string, int>): (WorkItem, WorkItem) -> bool {
    (a: WorkItem, b: WorkItem) => OrderIndex(a.id, order) < OrderIndex(b.id, order)
  }

  /** sort.SliceStable under this order. */
  ghost predicate IsSort(sort: (map<string, int>, seq<WorkItem>) -> seq<WorkItem>) {
    forall order, xs :: SortsTo(xs, sort(order, xs), ByIndex(order))
  }

  ghost predicate Positions(order: map<string, int>, ids: seq<string>) {
    order.Keys == (set id | id in ids) && forall i :: 0 <= i < |ids| ==> ids[i] in order && order[ids[i]] == i
  }

  function Joined(batches: seq<seq<string>>): seq<string> {
    if batches == [] then [] else Joined(batches[..|batches| - 1]) + batches[|batches| - 1]
  }

  /** The batches partition the IDs in order: full pages, and one last page that is not empty. */
  ghost predicate Pages(batches: seq<seq<string>>, ids: seq<string>) {
    && Joined(batches) == ids
    && (forall k :: 0 <= k < |batches| - 1 ==> |batches[k]| == PAGE_SIZE)
    && (batches != [] ==> 0 < |batches[|batches| - 1]| <= PAGE_SIZE)
  }

  /** As far as they go, the batches are the pages of the IDs. */
  ghost predicate FirstPages(batches: seq<seq<string>>, ids: seq<string>) {
    exists end: nat :: end <= |ids| && Pages(batches, ids[..end])
  }

  ghost predicate FullPages(batches: seq<seq<string>>) {
    forall k :: 0 <= k < |batches| ==> |batches[k]| == PAGE_SIZE
  }

  ghost predicate Succeeded(server: Server, batches: seq<seq<string>>) {
    forall k :: 0 <= k < |batches| ==> server.answer(k, batches[k]).Ok?
  }

  /** Success means that every request succeeded; an error is that of the last request, the first to fail. */
  ghost predicate Reports(server: Server, batches: seq<seq<string>>, result: Answer<seq<WorkItem>>) {
    if result.Ok? then Succeeded(server, batches)
    else
      && batches != [] && Succeeded(server, batches[..|batches| - 1])
      && server.answer(|batches| - 1, batches[|batches| - 1]) == Err(result.message)
  }

  /** The answer for a first part of the IDs and the answer for the next batch make the answer for both. */
  lemma AnswersJoin(visible: map<string, WorkItem>, a: seq<string>, b: seq<string>, xs: seq<WorkItem>, ys: seq<WorkItem>)
    requires Distinct(a + b) && AnswersBatch(visible, a, xs) && AnswersBatch(visible, b, ys)
    ensures AnswersBatch(visible, a + b, xs + ys)
  {
    forall x ensures x in xs + ys <==> Found(visible, a + b, x) {
    }
    forall i, j | 0 <= i < j < |xs + ys| ensures (xs + ys)[i] != (xs + ys)[j] {
      if i < |xs| <= j {
        var x, y := xs[i], ys[j - |xs|];
        assert x in xs && y in ys;
        assert Found(visible, a, x) && Found(visible, b, y);
        DistinctParts(a, b, x.id, y.id);
      }
    }
  }

  lemma DistinctParts(a: seq<string>, b: seq<string>, x: string, y: string)
    requires Distinct(a + b) && x in a && y in b
    ensures x != y
  {
    var i :| 0 <= i < |a| && a[i] == x;
    var j :| 0 <= j < |b| && b[j] == y;
    assert (a + b)[i] == x && (a + b)[|a| + j] == y;
  }

  lemma {:induction false} InOrderSorted(index: map<string, WorkItem>, ids: seq<string>, from: nat, order: map<string, int>)
    requires Keyed(index) && Distinct(ids) && Positions(order, ids) && from <= |ids|
    ensures Sorted(InOrder(index, ids[from..]), ByIndex(order)) && Distinct(InOrder(index, ids[from..]))
    decreases |ids| - from
  {
    if from < |ids| {
      InOrderSorted(index, ids, from + 1, order);
      assert ids[from..][1..] == ids[from + 1..];
      var rest := InOrder(index, ids[from + 1..]);
      forall k | 0 <= k < |rest| ensures rest[k].id in order && order[rest[k].id] > from {
        assert rest[k] in rest;
        InOrderFinds(index, ids[from + 1..], rest[k]);
        var j :| 0 <= j < |ids[from + 1..]| && ids[from + 1..][j] == rest[k].id;
        assert ids[from + 1 + j] == rest[k].id;
      }
    }
  }

  /** Any sorted permutation of the answer is the in-order lookup. */
  lemma SortedAnswerIsInOrder(
    visible: map<string, WorkItem>, ids: seq<string>, order: map<string, int>, items: seq<WorkItem>, sorted: seq<WorkItem>)
    requires Keyed(visible) && Distinct(ids) && Positions(order, ids)
    requires AnswersBatch(visible, ids, items) && SortsTo(items, sorted, ByIndex(order))
    ensures sorted == InOrder(visible, ids)
  {
    var wanted, less := InOrder(visible, ids), ByIndex(order);
    PermutationKeeps(items, sorted);
    assert ids[0..] == ids;
    InOrderSorted(visible, ids, 0, order);
    forall x ensures x in sorted <==> x in wanted {
      InOrderFinds(visible, ids, x);
    }
    forall a, b | a in sorted && b in sorted && a != b ensures less(a, b) || less(b, a) {
      assert a in items && b in items;
      assert Found(visible, ids, a) && Found(visible, ids, b);
      assert a.id != b.id;
      var i :| 0 <= i < |ids| && ids[i] == a.id;
      var j :| 0 <= j < |ids| && ids[j] == b.id;
    }
    SortedUnique(sorted, wanted, less);
  }

  method OrderOf(ids: seq<string>) returns (order: map<string, int>)
    requires Distinct(ids)
    ensures Positions(order, ids)
  {
    order := map[];
    for i := 0 to |ids|
      invariant order.Keys == set id | id in ids[..i]
      invariant forall k :: 0 <= k < i ==> ids[k] in order && order[ids[k]] == k
    {
      order := order[ids[i] := i];
      assert ids[..i + 1] == ids[..i] + [ids[i]];
    }
    assert ids[..|ids|] == ids;
  }

  class LinearReader {
    const server: Server
    const sort: (map<string, int>, seq<WorkItem>) -> seq<WorkItem>
    const filterError: Option<string>     // what assigneeFilter reports

    constructor (server: Server, sort: (map<string, int>, seq<WorkItem>) -> seq<WorkItem>, filterError: Option<string>)
      ensures this.server == server && this.sort == sort && this.filterError == filterError
    {
      this.server, this.sort, this.filterError := server, sort, filterError;
    }

    /** Requests page after page until one fails. */
    method FetchPages(ids: seq<string>, ghost visible: map<string, WorkItem>)
      returns (result: Answer<seq<WorkItem>>, ghost batches: seq<seq<string>>)
      requires Distinct(ids) && Serves(server, visible)
      ensures result.Ok? ==> AnswersBatch(visible, ids, result.value)
      ensures result.Ok? ==> Pages(batches, ids)
      ensures Reports(server, batches, result) && FirstPages(batches, ids)
    {
      var refreshed := [];
      var start, n: nat := 0, 0;
      batches := [];
      while start < |ids|
        invariant start <= |ids| && n == |batches|
        invariant Joined(batches) == ids[..start]
        invariant Succeeded(server, batches)
        invariant if start < |ids| then FullPages(batches) else Pages(batches, ids)
        invariant AnswersBatch(visible, ids[..start], refreshed)
      {
        var end := if start + PAGE_SIZE > |ids| then |ids| else start + PAGE_SIZE;
        var batch := ids[start..end];
        ghost var before := batches;
        batches := batches + [batch];
        assert batches[..|batches| - 1] == before;
        var answer := server.answer(n, batch);
        assert Pages(batches, ids[..end]) by { assert ids[..end] == ids[..start] + batch; }
        if answer.Err? {
          return Err(answer.message), batches;
        }
        assert ids[..end] == ids[..start] + batch;
        PrefixDistinct(ids, end);
        AnswersJoin(visible, ids[..start], batch, refreshed, answer.value);
        refreshed := refreshed + answer.value;
        start, n := end, n + 1;
      }
      assert ids[..start] == ids;
      assert Pages(batches, ids[..|ids|]);
      result := Ok(refreshed);
    }

    /** Whatever order the server answers in, the result is the in-order lookup of the trimmed, distinct IDs. */
    method RefreshByIDs(ids: seq<string>, ghost visible: map<string, WorkItem>)
      returns (result: Answer<seq<WorkItem>>, ghost batches: seq<seq<string>>)
      requires Keyed(visible) && Serves(server, visible) && IsSort(sort)
      ensures Normalized(ids) == [] ==> result == Ok([])
      ensures Normalized(ids) != [] && filterError.Some? ==> result == Err(filterError.value)
      ensures result.Ok? ==> result.value == InOrder(visible, Normalized(ids))
      ensures Normalized(ids) == [] || filterError.Some? ==> batches == []
      ensures Normalized(ids) != [] && filterError.None? ==>
                Reports(server, batches, result) && FirstPages(batches, Normalized(ids))
      ensures result.Ok? ==> Pages(batches, Normalized(ids))
    {
      batches := [];
      var normalized := NormalizeIDs(ids);
      if normalized == [] {
        return Ok([]), batches;
      }
      if filterError.Some? {
        return Err(filterError.value), batches;
      }
      NormalizedContent(ids);
      var order := OrderOf(normalized);
      result, batches := FetchPages(normalized, visible);
      if result.Ok? {
        var sorted := sort(order, result.value);
        SortedAnswerIsInOrder(visible, normalized, order, result.value, sorted);
        result := Ok(sorted);
      }
    }
  }

  /** Against a server that shows what the memory reader was seeded with, both readers return the same items. */
  method ReadersAgree(linear: LinearReader, memory: MemoryReader, ids: seq<string>)
    returns (fromLinear: Answer<seq<WorkItem>>, fromMemory: seq<WorkItem>)
    requires Serves(linear.server, SeedIndex(memory.items)) && IsSort(linear.sort)
    ensures fromMemory == InOrder(SeedIndex(memory.items), Normalized(ids))
    ensures fromLinear.Ok? ==> fromLinear.value == fromMemory
  {
    SeedIndexKeyed(memory.items);
    ghost var batches;
    fromLinear, batches := linear.RefreshByIDs(ids, SeedIndex(memory.items));
    var normalized := NormalizeIDs(ids);
    fromMemory := memory.RefreshByIDs(normalized);
  }

  lemma PrefixDistinct(ids: seq<string>, end: nat)
    requires Distinct(ids) && end <= |ids|
    ensures Distinct(ids[..end])
    ensures forall start: nat :: start <= end ==> Distinct(ids[start..end])
  {
  }

  // ----- what the scheduler assumes -----

  /** Asked for one ID, the memory reader answers with an item of that ID or with nothing. */
  lemma MemoryReaderEchoes(deps: Scheduler.Deps, items: seq<WorkItem>)
    requires deps.refresh.Some?
    requires forall n: nat, ids :: deps.refresh.value(n, ids) == Ok(InOrder(SeedIndex(items), ids))
    ensures Safety.EchoesId(deps)
  {
    var index := SeedIndex(items);
    SeedIndexKeyed(items);
    forall n: nat, id | deps.refresh.value(n, [id]).Ok? && deps.refresh.value(n, [id]).value != []
      ensures deps.refresh.value(n, [id]).value[0].id == id
    {
      var found := InOrder(index, [id]);
      assert found[0] in found;
      InOrderFinds(index, [id], found[0]);
    }
  }

  /** The Linear reader trims first, so when it finds something it echoes exactly the IDs without outer blanks. */
  lemma LinearReaderEchoes(visible: map<string, WorkItem>, id: string)
    requires Keyed(visible) && InOrder(visible, Normalized([id])) != []
    ensures InOrder(visible, Normalized([id]))[0].id == id <==> Trim(id) == id
  {
    var found := InOrder(visible, Normalized([id]));
    assert found[0] in found;
    InOrderFinds(visible, Normalized([id]), found[0]);
    NormalizedContent([id]);
  }
}
