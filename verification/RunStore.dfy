/** The stored rows, updated in place by the state service, the cancel endpoint and the janitor's sweep. */
module RunStore {
  import opened Wrappers
  import opened RunStatus
  import opened RunRow
  import opened RunProtocol
  import opened RunProtocolProofs

  type RunId = string

  datatype StateError = NotFound | Conflict

  datatype QueueState = Removed | Active | Missing

  /** What the sweep at time `now` selects. */
  predicate IsOrphaned(r: Row, now: Time) {
    && (IsDriven(r.status) || r.status == CancelRequested)
    && r.finishedAt.None?
    && r.leaseExpiresAt.Some? && r.leaseExpiresAt.value < now
  }

  function JanitorOp(r: Row): Op {
    if r.status == CancelRequested then MarkCancelled else MarkInfraFailed(Internal)
  }

  /** The row after a sweep at `now` that finishes it at `at`. */
  function Swept(r: Row, now: Time, at: Time): Row {
    if IsOrphaned(r, now) then Atomically(r, JanitorOp(r), at, at) else r
  }

  /** An orphaned run is finished, cancelled if its cancellation was accepted and failed otherwise. */
  lemma SweepFinishesOrphans(r: Row, now: Time, at: Time, later: Time)
    ensures var w := Swept(r, now, at);
            && !IsOrphaned(w, now)
            && (!IsOrphaned(r, now) ==> w == r)
            && (IsOrphaned(r, now) ==>
                  && w.status == (if r.status == CancelRequested then Cancelled else InfraFailed)
                  && w.failureCategory == Some(if r.status == CancelRequested then Cancellation else Internal)
                  && w.finishedAt == Some(at) && NoLease(w) && !IsOrphaned(w, later)
                  && w.phaseTimestamps == r.phaseTimestamps)
  {
  }

  /** The expiry of a run that a worker has claimed, or had before a cancellation, lies before `now`. */
  predicate HasRunOut(r: Row, now: Time) {
    && r.status !in {Created, Queued, Passed, TestFailed, InfraFailed, TimedOut, Cancelled} && r.finishedAt.None?
    && match r.leaseExpiresAt
       case Some(expiry) => now > expiry
       case None => false
  }

  /** A sweep changes exactly the runs whose lease has run out, and leaves none of them. */
  lemma SweepsWhatHasRunOut(r: Row, now: Time, at: Time)
    ensures Swept(r, now, at) != r <==> HasRunOut(r, now)
    ensures !HasRunOut(Swept(r, now, at), now)
  {
  }

  /**
   * The sweep does not see every stuck run: one whose cancellation was accepted is selected by some
   * sweep exactly if it was claimed before, because an unclaimed run has no expiry.
   */
  lemma CancellationIsSweptIff(start: Time, events: seq<Event>)
    requires Exec(Initial(start), events).row.status == CancelRequested
    ensures var r := Exec(Initial(start), events).row;
            (exists now: Time :: IsOrphaned(r, now)) <==> r.attempt > 0
  {
    Reachable(start, events);
    var r := Exec(Initial(start), events).row;
    if r.attempt > 0 {
      assert IsOrphaned(r, r.leaseExpiresAt.value + 1);
    }
  }

  class TestRunStore {
    var runs: map<RunId, Row>

    constructor ()
      ensures runs == map[]
    {
      runs := map[];
    }

    /** The second half of an operation: one conditional update, answering how many rows it changed. */
    method UpdateMany(id: RunId, op: Op, seen: Snapshot, begun: Time, now: Time) returns (count: nat)
      modifies this
      ensures id !in old(runs) ==> count == 0 && runs == old(runs)
      ensures id in old(runs) ==>
                && runs == old(runs)[id := CompareAndSwap(old(runs)[id], op, seen, begun, now)]
                && count == if Matches(old(runs)[id], op, seen, begun) then 1 else 0
    {
      count := 0;
      if id in runs && Matches(runs[id], op, seen, begun) {
        runs := runs[id := Written(runs[id], op, seen, begun, now)];
        count := 1;
      } else if id in runs {
        assert runs[id := runs[id]] == runs;
      }
    }

    /** Both halves without interruption, as `transition` and `claim` run them. */
    method Transition(id: RunId, op: Op, begun: Time, now: Time) returns (result: Result<Row, StateError>)
      modifies this
      ensures id !in old(runs) ==> result == Err(NotFound) && runs == old(runs)
      ensures id in old(runs) ==>
                var r := old(runs)[id];
                && runs == old(runs)[id := Atomically(r, op, begun, now)]
                && (result.Ok? <==> Permitted(op, r.status) && Matches(r, op, ReadSnapshot(r), begun))
                && (result.Ok? ==> result.value == runs[id])
                && (result.Err? ==> result.error == Conflict && runs == old(runs))
    {
      if id !in runs {
        return Err(NotFound);
      }
      var seen := ReadSnapshot(runs[id]);
      if !Permitted(op, seen.status) {
        assert runs[id := runs[id]] == runs;
        return Err(Conflict);
      }
      var count := UpdateMany(id, op, seen, begun, now);
      if count == 0 {
        return Err(Conflict);
      }
      return Ok(runs[id]);
    }

    /** `tryMarkInfraFailed` and `tryMarkCancelled`: a run already finished is left alone without an error. */
    method TryMark(id: RunId, op: Op, begun: Time, now: Time) returns (result: Result<Option<Row>, StateError>)
      requires op.MarkInfraFailed? || op.MarkCancelled?
      modifies this
      ensures id !in old(runs) ==> result == Err(NotFound) && runs == old(runs)
      ensures id in old(runs) ==>
                var r := old(runs)[id];
                && runs == old(runs)[id := Atomically(r, op, begun, now)]
                && (IsTerminal(r.status) ==> result == Ok(None))
                && (!IsTerminal(r.status) && Permitted(op, r.status) ==> result == Ok(Some(runs[id])))
                && (!IsTerminal(r.status) && !Permitted(op, r.status) ==> result == Err(Conflict))
    {
      if id !in runs {
        return Err(NotFound);
      }
      if IsTerminal(runs[id].status) {
        assert runs[id := runs[id]] == runs;
        return Ok(None);
      }
      var marked := Transition(id, op, begun, now);
      match marked
      case Ok(row) => return Ok(Some(row));
      case Err(error) =>
        if error == Conflict && IsTerminal(runs[id].status) {
          return Ok(None);
        }
        return Err(error);
    }

    method MarkQueuedIfCreated(id: RunId, now: Time) returns (result: Result<Option<Row>, StateError>)
      modifies this
      ensures id !in old(runs) ==> result == Err(NotFound) && runs == old(runs)
      ensures id in old(runs) ==>
                && runs == old(runs)[id := QueuedIfCreated(old(runs)[id], now)]
                && result == Ok(if IsEnqueueable(old(runs)[id]) then Some(runs[id]) else None)
                && (result.value.Some? <==>
                      && old(runs)[id].status == Created && old(runs)[id].finishedAt.None?
                      && old(runs)[id].cancelRequestedAt.None? && old(runs)[id].cancellationRequestedAt.None?)
                && (result.value.Some? ==>
                      runs[id].status == Queued && runs[id].queuedAt == runs[id].enqueuedAt == Some(now))
    {
      if id !in runs {
        return Err(NotFound);
      }
      if !IsEnqueueable(runs[id]) {
        assert runs[id := runs[id]] == runs;
        return Ok(None);
      }
      runs := runs[id := QueuedIfCreated(runs[id], now)];
      return Ok(Some(runs[id]));
    }

    method RenewLease(id: RunId, runner: RunnerId, leaseMs: int, now: Time) returns (renewed: bool)
      modifies this
      ensures renewed <==>
                && id in old(runs) && old(runs)[id].runnerId == Some(runner) && old(runs)[id].finishedAt.None?
                && old(runs)[id].status !in {Passed, TestFailed, InfraFailed, TimedOut, Cancelled}
      ensures runs == if renewed then
                        old(runs)[id := old(runs)[id].(heartbeatAt := Some(now), leaseExpiresAt := Some(now + leaseMs))]
                      else old(runs)
    {
      renewed := id in runs && IsRenewable(runs[id], runner);
      if renewed {
        runs := runs[id := Renewed(runs[id], runner, leaseMs, now)];
      } else if id in runs {
        assert runs[id := runs[id]] == runs;
      }
    }

    /**
     * `cancel`: a queued run whose job is gone is cancelled at once, any other cancellable run is asked to
     * stop, except that the request is refused with a conflict during cleanup.
     */
    method Cancel(id: RunId, queueState: QueueState, requestedAt: Time, cancelledAt: Time)
      returns (result: Result<Row, StateError>)
      modifies this
      ensures id !in old(runs) ==> result == Err(NotFound) && runs == old(runs)
      ensures id in old(runs) ==> runs.Keys == old(runs).Keys
      ensures id in old(runs) ==> forall other :: other in runs && other != id ==> runs[other] == old(runs)[other]
      ensures id in old(runs) && !IsCancellable(old(runs)[id].status) ==> result == Ok(old(runs)[id]) && runs == old(runs)
      ensures id in old(runs) && old(runs)[id].status == CleaningUp ==> result == Err(Conflict) && runs == old(runs)
      ensures id in old(runs) && IsCancellable(old(runs)[id].status) && old(runs)[id].status != CleaningUp ==>
                && result == Ok(runs[id]) && runs[id].cancelRequestedAt == Some(requestedAt)
                && runs[id].status ==
                   (if old(runs)[id].status == Queued && queueState != Active then Cancelled else CancelRequested)
                && (runs[id].status == Cancelled ==> runs[id].finishedAt == Some(cancelledAt))
                && runs[id].phaseTimestamps == old(runs)[id].phaseTimestamps
    {
      if id !in runs {
        return Err(NotFound);
      }
      var run := runs[id];
      if IsTerminal(run.status) || run.status == CancelRequested || !IsCancellable(run.status) {
        return Ok(run);
      }
      var requested := Transition(id, RequestCancel, requestedAt, requestedAt);
      if requested.Err? {
        return requested;
      }
      if run.status == Queued && (queueState == Removed || queueState == Missing) {
        var cancelled := Transition(id, MarkCancelled, cancelledAt, cancelledAt);
        if cancelled.Err? {
          return cancelled;
        }
      }
      return Ok(runs[id]);
    }

    /**
     * One sweep that no other actor interrupts, at time `now`; `at(id)` is the clock reading that finishes run `id`.
     * The list of orphaned runs is read first; each is then marked on its own.
     */
    method RecoverExpiredLeases(now: Time, at: RunId -> Time)
      modifies this
      ensures runs.Keys == old(runs).Keys
      ensures forall id :: id in runs ==> runs[id] == Swept(old(runs)[id], now, at(id))
      ensures forall id :: id in runs ==> !IsOrphaned(runs[id], now)
      ensures forall id :: id in runs ==> (runs[id] != old(runs)[id] <==> HasRunOut(old(runs)[id], now))
      ensures forall id :: id in runs ==> !HasRunOut(runs[id], now)
    {
      hide IsOrphaned, Atomically, Permitted, IsTerminal, HasRunOut;
      var pending := set id | id in runs && IsOrphaned(runs[id], now);
      while pending != {}
        invariant runs.Keys == old(runs).Keys && pending <= runs.Keys
        invariant forall id :: id in pending ==> runs[id] == old(runs)[id] && IsOrphaned(runs[id], now)
        invariant forall id :: id in runs && id !in pending ==> runs[id] == Swept(old(runs)[id], now, at(id))
        decreases |pending|
      {
        var id :| id in pending;
        var result := TryMark(id, JanitorOp(runs[id]), at(id), at(id));
        pending := pending - {id};
      }
      forall id | id in runs
        ensures !IsOrphaned(runs[id], now) && !HasRunOut(runs[id], now)
        ensures runs[id] != old(runs)[id] <==> HasRunOut(old(runs)[id], now)
      {
        SweepFinishesOrphans(old(runs)[id], now, at(id), now);
        SweepsWhatHasRunOut(old(runs)[id], now, at(id));
      }
    }
  }
}
