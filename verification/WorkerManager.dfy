/**
 The worker manager of internal/cli/runtime.go: the map of run handles, the closed flag and the wait group.

 Each method is one critical section of the source. `live` is the history variable that makes the wait
 group meaningful: the handles whose goroutine has been started and has not returned.
 */
module Manager {
  import opened Domain
  import opened ManagerCalls

  class RunHandle {
    const itemId: string
    const identifier: string
    const workerHost: string
    var cancelled: bool            // the context of this run; the root context cancels it too
    var stopped: bool              // stopOnce has fired
    var workspacePath: string
    var session: Option<nat>
    var closedSessions: set<nat>

    constructor (itemId: string, identifier: string, workerHost: string)
      ensures this.itemId == itemId && this.identifier == identifier && this.workerHost == workerHost
      ensures !cancelled && !stopped && workspacePath == "" && session.None? && closedSessions == {}
    {
      this.itemId, this.identifier, this.workerHost := itemId, identifier, workerHost;
      cancelled, stopped, workspacePath, session, closedSessions := false, false, "", None, {};
    }

    /** Only the first call does anything: it cancels the context and closes the session there is by then. */
    method Stop()
      modifies this
      ensures stopped && (old(stopped) ==> unchanged(this))
      ensures !old(stopped) ==>
                && cancelled && session == old(session) && workspacePath == old(workspacePath)
                && closedSessions == old(closedSessions) + (if old(session).Some? then {old(session).value} else {})
    {
      if !stopped {
        stopped, cancelled := true, true;
        if session.Some? {
          closedSessions := closedSessions + {session.value};
        }
      }
    }

    method SetWorkspace(path: string)
      modifies this`workspacePath
      ensures workspacePath == path
    {
      workspacePath := path;
    }

    method SetSession(begun: nat)
      modifies this`session
      ensures session == Some(begun)
    {
      session := Some(begun);
    }

    /** A session is only cleared by the loop that set it. */
    method ClearSession(finished: nat)
      modifies this`session
      ensures session == if old(session) == Some(finished) then None else old(session)
    {
      if session == Some(finished) {
        session := None;
      }
    }
  }

  /** What StopRun asks of the workspace manager. */
  datatype Cleanup =
    | Nothing
    | RemovePath(path: string, identifier: string, host: string)
    | RemoveByIssue(identifier: string, host: string)

  class WorkerManager {
    var handles: map<string, RunHandle>
    var closed: bool
    var rootCancelled: bool
    var waiting: nat                 // the counter of closeWait
    ghost var live: set<RunHandle>

    /** The counter counts the live workers, and the listed handles are live and under their items. */
    ghost predicate Valid()
      reads this, live
    {
      && waiting == |live|
      && (forall id :: id in handles ==> handles[id] in live && handles[id].itemId == id)
      && (forall h :: h in live && h.stopped ==> h.cancelled)
    }

    /** The fields as the value the lemmas about calls speak of. */
    ghost function Value(): Books<RunHandle>
      reads this
    {
      Books(handles, map h | h in live :: h.itemId, closed, rootCancelled)
    }

    ghost predicate Cancelled(h: RunHandle)
      reads this, h
    {
      rootCancelled || h.cancelled
    }

    constructor ()
      ensures Valid() && Value() == NewBooks() && live == {}
    {
      handles, closed, rootCancelled, waiting, live := map[], false, false, 0, {};
    }

    /** Refused once closed; otherwise one more live worker, registered in place of an older handle. */
    method StartRun(itemId: string, identifier: string, host: string) returns (started: Option<RunHandle>)
      requires Valid()
      modifies this
      ensures Valid() && (started.None? <==> old(closed))
      ensures old(closed) ==> unchanged(this)
      ensures started.Some? ==>
                && fresh(started.value) && !started.value.stopped && !started.value.cancelled
                && started.value.itemId == itemId && started.value.identifier == identifier && started.value.workerHost == host
                && live == old(live) + {started.value} && Value() == Take(old(Value()), Start(started.value, itemId))
    {
      if closed {
        return None;
      }
      var handle := new RunHandle(itemId, identifier, host);
      handles := handles[itemId := handle];
      waiting := waiting + 1;
      live := live + {handle};
      assert Value().live == old(Value()).live[handle := itemId];
      started := Some(handle);
    }

    method StopRun(handle: RunHandle?, identifier: string, cleanup: bool) returns (result: Cleanup)
      requires Valid()
      modifies handle
      ensures Valid() && Value() == old(Value())
      ensures handle != null ==> handle.stopped && handle.workspacePath == old(handle.workspacePath)
      ensures handle != null && old(handle.stopped) ==> unchanged(handle)
      ensures handle != null && !old(handle.stopped) ==>
                && handle.cancelled
                && (old(handle.session).Some? ==> old(handle.session).value in handle.closedSessions)
      ensures result.Nothing? <==> !cleanup
      ensures cleanup && handle == null ==> result == RemoveByIssue(identifier, "")
      ensures cleanup && handle != null ==>
                result == if handle.workspacePath == "" then RemoveByIssue(identifier, handle.workerHost)
                          else RemovePath(handle.workspacePath, identifier, handle.workerHost)
    {
      if handle == null {
        return if cleanup then RemoveByIssue(identifier, "") else Nothing;
      }
      handle.Stop();
      if !cleanup {
        return Nothing;
      }
      result := if handle.workspacePath != "" then RemovePath(handle.workspacePath, identifier, handle.workerHost)
                else RemoveByIssue(identifier, handle.workerHost);
    }

    /** A goroutine returns: its item leaves `handles`, whichever handle the item has there, then the counter drops. */
    method Finish(handle: RunHandle)
      requires Valid() && handle in live
      modifies this
      ensures Valid() && live == old(live) - {handle}
      ensures Value() == Take(old(Value()), Return(handle))
    {
      handles := handles - {handle.itemId};
      live := live - {handle};
      waiting := waiting - 1;
    }

    /** The locked part of Close: no new runs from here on, and a copy of the listed handles. */
    method MarkClosed() returns (listed: set<RunHandle>)
      requires Valid()
      modifies this`closed
      ensures Valid() && Value() == Take(old(Value()), Shut)
      ensures listed == handles.Values
    {
      closed := true;
      listed := handles.Values;
    }

    /** Every worker has a context below the root's. */
    method CancelRoot()
      requires Valid()
      modifies this`rootCancelled
      ensures Valid() && Value() == Take(old(Value()), ManagerCalls.CancelRoot)
      ensures forall h :: h in live ==> Cancelled(h)
    {
      rootCancelled := true;
    }

    /** The copied handles are stopped one by one, also those whose workers have returned meanwhile. */
    method StopListed(listed: set<RunHandle>)
      requires Valid()
      modifies listed
      ensures Valid() && Value() == old(Value())
      ensures forall h :: h in listed ==> h.stopped
    {
      var left := listed;
      while left != {}
        invariant left <= listed && Valid()
        invariant forall h :: h in listed && h !in left ==> h.stopped
      {
        var handle :| handle in left;
        handle.Stop();
        left := left - {handle};
      }
    }

    /** Close up to the wait, when nothing comes in between: every context cancelled, every listed handle stopped. */
    method BeginClose()
      requires Valid()
      modifies this, handles.Values
      ensures Valid() && live == old(live)
      ensures Value() == Take(Take(old(Value()), Shut), ManagerCalls.CancelRoot)
      ensures forall h :: h in live ==> Cancelled(h)
      ensures forall h :: h in handles.Values ==> h.stopped
    {
      var listed := MarkClosed();
      CancelRoot();
      StopListed(listed);
    }

    /** Whether closeWait.Wait returns now. */
    method WaitReturns() returns (done: bool)
      requires Valid()
      ensures done <==> live == {}
    {
      done := waiting == 0;
    }
  }

  /**
   `handles` need not list every live worker: of two workers of one item the older is not listed, and when it
   returns the newer is not either, as `ManagerCalls.OverlapUnlistsBoth` says of any manager. Closing cancels
   the unlisted worker all the same, and waits for it.
   */
  method NewerHandleUnlisted(itemId: string, identifier: string, host: string) returns (m: WorkerManager, newer: RunHandle)
    ensures fresh(m) && m.Valid() && m.closed
    ensures newer in m.live && newer !in m.handles.Values
    ensures !newer.stopped && m.Cancelled(newer) && m.waiting == 1
  {
    m := new WorkerManager();
    var first := m.StartRun(itemId, identifier, host);
    var second := m.StartRun(itemId, identifier, host);
    newer := second.value;
    m.Finish(first.value);
    assert m.handles == map[];
    m.BeginClose();
  }
}
