/** What an operation, a renewal and a sweep do to a reachable row, told in its columns and the history of claims. */
module RunLeases {
  import opened Wrappers
  import opened RunStatus
  import opened RunRow
  import opened RunProtocol
  import opened RunProtocolProofs
  import opened RunTheorems
  import opened RunDiscipline
  import opened RunStore

  /** An unfinished row has the runner and the expiry of the last claim, if there was one. */
  lemma LeaseIsOfLastClaim(start: Time, events: seq<Event>)
    ensures var s := Exec(Initial(start), events);
            s.row.finishedAt.None? ==>
              && s.row.runnerId == (if s.leases == [] then None else Some(s.leases[|s.leases| - 1].runner))
              && s.row.leaseExpiresAt == (if s.leases == [] then None else Some(s.leases[|s.leases| - 1].expiresAt))
  {
    Reachable(start, events);
  }

  /** A heartbeat extends the lease of an unfinished run if it comes from the runner that claimed it last, and only then. */
  lemma OnlyTheHolderRenews(start: Time, events: seq<Event>, runner: RunnerId, leaseMs: int, now: Time)
    requires now <= Exec(Initial(start), events).clock
    ensures var s := Exec(Initial(start), events);
            var t := Step(s, Renew(runner, leaseMs, now));
            var n := |s.leases|;
            if n > 0 && s.leases[n - 1].runner == runner && s.row.finishedAt.None? then
              && t.row == s.row.(heartbeatAt := Some(now), leaseExpiresAt := Some(now + leaseMs))
              && t.leases == s.leases[n - 1 := s.leases[n - 1].(expiresAt := now + leaseMs)]
            else t.row == s.row && t.leases == s.leases
  {
    Reachable(start, events);
    var s := Exec(Initial(start), events);
    LeaseIsOfLastClaim(start, events);
    assert LeaseFieldsInv(s.row) && OutcomeInv(s.row) && LeasesInv(s);
    hide Inv;
    if s.leases != [] && IsRenewable(s.row, runner) {
      var n := |s.leases|;
      assert s.leases[..n - 1] + [s.leases[n - 1].(expiresAt := now + leaseMs)]
          == s.leases[n - 1 := s.leases[n - 1].(expiresAt := now + leaseMs)];
    }
  }

  /** A sweep finishes exactly the unfinished run whose last claim, as extended, ran out before it. */
  lemma SweepFollowsTheLease(start: Time, events: seq<Event>, now: Time, at: Time)
    ensures var s := Exec(Initial(start), events);
            var w := Swept(s.row, now, at);
            var n := |s.leases|;
            && (w != s.row <==> s.row.finishedAt.None? && n > 0 && s.leases[n - 1].expiresAt < now)
            && (w != s.row ==>
                  && w.finishedAt == Some(at) && w.runnerId.None? && w.leaseExpiresAt.None?
                  && w.status == if s.row.cancelRequestedAt.Some? then Cancelled else InfraFailed)
  {
    Reachable(start, events);
    LeaseIsOfLastClaim(start, events);
    var s := Exec(Initial(start), events);
    assert LeaseFieldsInv(s.row) && OutcomeInv(s.row) && CancelInv(s.row) && LeasesInv(s);
    hide Inv;
  }

  /** Only a created run is queued. */
  lemma OnlyCreatedIsQueued(start: Time, events: seq<Event>, now: Time)
    requires now <= Exec(Initial(start), events).clock
    ensures var s := Exec(Initial(start), events);
            Step(s, Enqueue(now)).row ==
              if s.row.status == Created then s.row.(status := Queued, queuedAt := Some(now), enqueuedAt := Some(now))
              else s.row
  {
    Reachable(start, events);
    var r := Exec(Initial(start), events).row;
    assert LeaseFieldsInv(r) && OutcomeInv(r) && CancelInv(r);
    hide Inv;
  }

  /** Where the calls are disciplined, a cancellation is seen exactly if one was accepted. */
  lemma CancellationIsSeenIff(start: Time, events: seq<Event>)
    requires DisciplinedRun(Initial(start), events)
    ensures var r := Exec(Initial(start), events).row; CancellationSeen(r) <==> r.cancelRequestedAt.Some?
  {
    InitialDiscipline(start);
    DisciplinedReachable(Initial(start), events);
  }

  /** What a write that goes through leaves in the row, `job` being its read half. */
  predicate IsRecorded(r: Row, w: Row, job: Job, now: Time)
    requires job.HasRead?
  {
    match job.op
    case Claim(runner, leaseMs) =>
      w == r.(status := Claimed, runnerId := Some(runner), leaseAcquiredAt := Some(job.begun),
              leaseExpiresAt := Some(job.begun + leaseMs), heartbeatAt := Some(job.begun), attempt := r.attempt + 1,
              claimedAt := Some(job.begun), startedAt := Some(job.begun))
    case EnterPhase(phase) =>
      w == r.(status := phase, currentPhase := Some(phase),
              phaseTimestamps := if phase in r.phaseTimestamps then r.phaseTimestamps else r.phaseTimestamps[phase := now])
    case RequestCancel =>
      w == r.(status := Status.CancelRequested, currentPhase := None, cancelRequestedAt := Some(job.begun),
              cancellationRequestedAt := Some(job.begun))
    case _ =>
      && w.finishedAt == Some(job.begun) && w.currentPhase.None? && w.phaseTimestamps == r.phaseTimestamps
      && w.runnerId.None? && w.leaseAcquiredAt.None? && w.leaseExpiresAt.None? && w.heartbeatAt.None?
      && w.attempt == r.attempt && w.cancelRequestedAt == r.cancelRequestedAt
      && match job.op
         case MarkPassed(stats) => w.status == Passed && w.failureCategory.None? && w.stats == stats
         case MarkTestFailed(stats) => w.status == TestFailed && w.stats == stats
         case MarkInfraFailed(category) =>
           w.status == InfraFailed && w.failureCategory == Some(category) && w.stats == r.stats
         case MarkTimedOut => w.status == TimedOut && w.stats == r.stats
         case _ => w.status == Cancelled && w.stats == r.stats
  }

  lemma WrittenRecords(r: Row, job: Job, now: Time)
    requires job.HasRead? && job.seen == ReadSnapshot(r) && Permitted(job.op, r.status)
    requires OutcomeInv(r) && r.currentPhase == if IsPhase(r.status) then Some(r.status) else None
    ensures IsRecorded(r, Written(r, job.op, job.seen, job.begun, now), job, now)
  {
  }

  lemma WriteRecords(start: Time, events: seq<Event>, a: nat, now: Time)
    requires WriteSucceeds(Exec(Initial(start), events), a, now)
    ensures var s := Exec(Initial(start), events);
            IsRecorded(s.row, Step(s, Write(a, now)).row, ActorOf(s, a).job, now)
  {
    Reachable(start, events);
    var s := Exec(Initial(start), events);
    var job := ActorOf(s, a).job;
    SuccessfulWriteSawTheRow(s, a);
    assert OutcomeInv(s.row) && RowInv(s.row, s.clock);
    WrittenRecords(s.row, job, now);
    hide Inv, IsRecorded, Written;
    assert Step(s, Write(a, now)).row == Written(s.row, job.op, job.seen, job.begun, now);
  }
}
