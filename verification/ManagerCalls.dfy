/**
 The bookkeeping of the worker manager of internal/cli/runtime.go as a function of the calls it gets, in any
 order and from anybody: which workers it lists, and what is left once it is closed.
 */
module ManagerCalls {

  /** The listed handle of each item, and the item of each live worker; `H` is the type of handles. */
  datatype Books<H(==)> = Books(handles: map<string, H>, live: map<H, string>, closed: bool, rootCancelled: bool)

  function NewBooks<H(==)>(): Books<H> {
    Books(map[], map[], false, false)
  }

  /**
   One critical section each: StartRun with the handle it allocates, the return of a worker, the locked part
   of Close, and the cancellation of the root context, by Close or by the context the manager was built on.
   */
  datatype Call<H> =
    | Start(handle: H, item: string)
    | Return(handle: H)
    | Shut
    | CancelRoot

  function Take<H(==)>(b: Books<H>, call: Call<H>): Books<H> {
    match call
    case Start(h, item) =>
      if b.closed || h in b.live then b else b.(handles := b.handles[item := h], live := b.live[h := item])
    case Return(h) =>
      if h !in b.live then b else b.(handles := b.handles - {b.live[h]}, live := b.live - {h})
    case Shut => b.(closed := true)
    case CancelRoot => b.(rootCancelled := true)
  }

  function TakeAll<H(==)>(b: Books<H>, calls: seq<Call<H>>): Books<H>
    decreases |calls|
  {
    if calls == [] then b else TakeAll(Take(b, calls[0]), calls[1..])
  }

  lemma {:induction false} TakeAppend<H>(b: Books<H>, first: seq<Call<H>>, more: seq<Call<H>>)
    ensures TakeAll(b, first + more) == TakeAll(TakeAll(b, first), more)
    decreases |first|
  {
    if first == [] {
      assert first + more == more;
    } else {
      assert (first + more)[0] == first[0] && (first + more)[1..] == first[1..] + more;
      TakeAppend(Take(b, first[0]), first[1..], more);
    }
  }

  // ----- which live workers are listed -----

  /** A listed handle belongs to a live worker of its item. */
  ghost predicate Tidy<H(!new)>(b: Books<H>) {
    forall id :: id in b.handles ==> b.handles[id] in b.live && b.live[b.handles[id]] == id
  }

  predicate Listed<H(==)>(b: Books<H>, h: H) {
    h in b.live && b.live[h] in b.handles && b.handles[b.live[h]] == h
  }

  ghost predicate AllListed<H(!new)>(b: Books<H>) {
    forall h :: h in b.live ==> Listed(b, h)
  }

  lemma StaysTidy<H(!new)>(b: Books<H>, call: Call<H>)
    requires Tidy(b)
    ensures Tidy(Take(b, call))
  {
    if call.Start? && !b.closed && call.handle !in b.live {
      assert forall id :: id in b.handles ==> b.handles[id] != call.handle;
    }
  }

  /** However it is called, the manager lists only handles of live workers, each under its item. */
  lemma {:induction false} ListedAreLive<H(!new)>(b: Books<H>, calls: seq<Call<H>>)
    requires Tidy(b)
    ensures Tidy(TakeAll(b, calls))
    decreases |calls|
  {
    if calls != [] {
      StaysTidy(b, calls[0]);
      ListedAreLive(Take(b, calls[0]), calls[1..]);
    }
  }

  /** The call puts a handle in the place of the item's, or removes the item's. */
  predicate Displaces<H(==)>(b: Books<H>, call: Call<H>, item: string) {
    match call
    case Start(h, started) => !b.closed && h !in b.live && started == item
    case Return(h) => h in b.live && b.live[h] == item
    case _ => false
  }

  /** Any call leaves a worker that stays live listed exactly when it was and its item is not displaced. */
  lemma CallKeepsListedExactly<H>(b: Books<H>, call: Call<H>, g: H)
    requires g in b.live && g in Take(b, call).live
    ensures Take(b, call).live[g] == b.live[g]
    ensures Listed(Take(b, call), g) <==> Listed(b, g) && !Displaces(b, call, b.live[g])
  {
  }

  /**
   From its start until its return a worker is listed exactly when no call since has displaced its item:
   neither the start of another worker for the item, nor the return of an older one.
   */
  lemma ListedExactly<H>(b: Books<H>, h: H, item: string, calls: seq<Call<H>>)
    requires !b.closed && h !in b.live
    requires forall k :: 0 <= k < |calls| ==> calls[k] != Return(h)
    ensures h in TakeAll(Take(b, Start(h, item)), calls).live
    ensures Listed(TakeAll(Take(b, Start(h, item)), calls), h)
            <==> Undisplaced(Take(b, Start(h, item)), calls, item)
  {
    StillListedExactly(Take(b, Start(h, item)), h, calls);
  }

  ghost predicate Undisplaced<H>(b: Books<H>, calls: seq<Call<H>>, item: string)
    decreases |calls|
  {
    calls != [] ==> !Displaces(b, calls[0], item) && Undisplaced(Take(b, calls[0]), calls[1..], item)
  }

  lemma {:induction false} StillListedExactly<H>(b: Books<H>, h: H, calls: seq<Call<H>>)
    requires h in b.live && forall k :: 0 <= k < |calls| ==> calls[k] != Return(h)
    ensures h in TakeAll(b, calls).live
    ensures Listed(TakeAll(b, calls), h) <==> Listed(b, h) && Undisplaced(b, calls, b.live[h])
    decreases |calls|
  {
    if calls != [] {
      assert h in Take(b, calls[0]).live;
      CallKeepsListedExactly(b, calls[0], h);
      StillListedExactly(Take(b, calls[0]), h, calls[1..]);
    }
  }

  /** A worker of the item is live already. */
  ghost predicate Occupied<H(!new)>(b: Books<H>, item: string) {
    exists g :: g in b.live && b.live[g] == item
  }

  /** The call starts a worker beside a live one of the same item. */
  ghost predicate Overlaps<H(!new)>(b: Books<H>, call: Call<H>) {
    call.Start? && !b.closed && call.handle !in b.live && Occupied(b, call.item)
  }

  /** Where every live worker is listed, an item has only one; so only an overlapping start ends that. */
  lemma AllListedExactly<H(!new)>(b: Books<H>, call: Call<H>)
    requires AllListed(b)
    ensures AllListed(Take(b, call)) <==> !Overlaps(b, call)
  {
    var after := Take(b, call);
    if Overlaps(b, call) {
      var g :| g in b.live && b.live[g] == call.item;
      CallKeepsListedExactly(b, call, g);
    } else {
      forall h | h in after.live ensures Listed(after, h) {
        if h in b.live {
          CallKeepsListedExactly(b, call, h);
          if call.Return? && call.handle in b.live && b.live[call.handle] == b.live[h] {
            assert Listed(b, h) && Listed(b, call.handle);
          }
        }
      }
    }
  }

  ghost predicate ListedThroughout<H(!new)>(b: Books<H>, calls: seq<Call<H>>)
    decreases |calls|
  {
    AllListed(b) && (calls != [] ==> ListedThroughout(Take(b, calls[0]), calls[1..]))
  }

  ghost predicate NoneOverlaps<H(!new)>(b: Books<H>, calls: seq<Call<H>>)
    decreases |calls|
  {
    calls != [] ==> !Overlaps(b, calls[0]) && NoneOverlaps(Take(b, calls[0]), calls[1..])
  }

  lemma {:induction false} ListedAlong<H(!new)>(b: Books<H>, calls: seq<Call<H>>)
    requires AllListed(b)
    ensures ListedThroughout(b, calls) <==> NoneOverlaps(b, calls)
    decreases |calls|
  {
    if calls != [] {
      AllListedExactly(b, calls[0]);
      if AllListed(Take(b, calls[0])) {
        ListedAlong(Take(b, calls[0]), calls[1..]);
      }
    }
  }

  /** Over any sequence of calls every live worker is listed throughout exactly when no start overlaps. */
  lemma ListedThroughoutExactly<H(!new)>(calls: seq<Call<H>>)
    ensures ListedThroughout(NewBooks<H>(), calls) <==> NoneOverlaps(NewBooks<H>(), calls)
  {
    ListedAlong(NewBooks<H>(), calls);
  }

  /** After an overlapping start the older worker is not listed, and once it has returned the newer one is not either. */
  lemma OverlapUnlistsBoth<H>(b: Books<H>, older: H, newer: H)
    requires !b.closed && older in b.live && newer !in b.live
    ensures var started := Take(b, Start(newer, b.live[older]));
            var returned := Take(started, Return(older));
            && older in started.live && !Listed(started, older) && Listed(started, newer)
            && newer in returned.live && !Listed(returned, newer)
  {
    var started := Take(b, Start(newer, b.live[older]));
    CallKeepsListedExactly(b, Start(newer, b.live[older]), older);
    CallKeepsListedExactly(started, Return(older), newer);
  }

  // ----- after Close has taken the lock -----

  /** No worker of `after` is new, and none has changed its item. */
  ghost predicate OnlyShrinks<H(!new)>(before: Books<H>, after: Books<H>) {
    forall h :: h in after.live ==> h in before.live && after.live[h] == before.live[h]
  }

  /** Once closed, the manager stays closed and its live workers only become fewer, whatever is called. */
  lemma {:induction false} ClosedOnlyShrinks<H(!new)>(b: Books<H>, calls: seq<Call<H>>)
    requires b.closed
    ensures TakeAll(b, calls).closed && OnlyShrinks(b, TakeAll(b, calls))
    ensures b.rootCancelled ==> TakeAll(b, calls).rootCancelled
    ensures b.live == map[] ==> TakeAll(b, calls).live == map[]
    decreases |calls|
  {
    if calls != [] {
      ClosedOnlyShrinks(Take(b, calls[0]), calls[1..]);
    }
  }

  /** A worker whose return is among the calls is gone after them. */
  lemma {:induction false} ReturnedIsGone<H(!new)>(b: Books<H>, calls: seq<Call<H>>, h: H)
    requires b.closed && Return(h) in calls
    ensures h !in TakeAll(b, calls).live
    decreases |calls|
  {
    if calls[0] == Return(h) {
      ClosedOnlyShrinks(Take(b, calls[0]), calls[1..]);
    } else {
      assert Return(h) in calls[1..];
      ReturnedIsGone(Take(b, calls[0]), calls[1..], h);
    }
  }

  /**
   Close in full, with any calls between its locked part and the cancellation of the root and any after: the
   root is cancelled, so every live worker is; the live workers are some of those there were at the lock, and
   none is left once each of these has returned.
   */
  lemma CloseDrains<H(!new)>(b: Books<H>, between: seq<Call<H>>, after: seq<Call<H>>)
    ensures var locked := Take(b, Shut);
            var end := TakeAll(locked, between + [CancelRoot] + after);
            && end.closed && end.rootCancelled && OnlyShrinks(b, end)
            && ((forall h :: h in b.live ==> Return(h) in between || Return(h) in after) ==> end.live == map[])
  {
    var locked, all := Take(b, Shut), between + [CancelRoot] + after;
    var end, waiting := TakeAll(locked, all), TakeAll(locked, between);
    ClosedOnlyShrinks(locked, all);
    ClosedOnlyShrinks(locked, between);
    assert all == between + ([CancelRoot] + after);
    TakeAppend(locked, between, [CancelRoot] + after);
    assert ([CancelRoot] + after)[0] == CancelRoot && ([CancelRoot] + after)[1..] == after;
    ClosedOnlyShrinks(Take(waiting, CancelRoot), after);
    if forall h :: h in b.live ==> Return(h) in between || Return(h) in after {
      forall h | h in b.live ensures h !in end.live {
        assert Return(h) in all;
        ReturnedIsGone(locked, all, h);
      }
    }
  }
}
