/** Every step keeps the invariants; what follows for whole runs. */
module RunProtocolProofs {
  import opened Wrappers
  import opened RunStatus
  import opened RunRow
  import opened RunProtocol

  // ---------- One write keeps the row's invariants ----------

  /** A permitted write goes deeper, or leaves status and history alone. */
  lemma WriteDescends(r: Row, op: Op, begun: Time, now: Time)
    requires HistoryInv(r) && Permitted(op, r.status)
    ensures var w := Written(r, op, ReadSnapshot(r), begun, now);
            ReadSnapshot(w) == ReadSnapshot(r) || Depth(r.status) < Depth(w.status)
  {
    if Target(op) != r.status {
      TransitionsDescend(r.status, Target(op));
    }
  }

  lemma WriteKeepsHistory(r: Row, op: Op, begun: Time, now: Time)
    requires HistoryInv(r) && Permitted(op, r.status)
    ensures HistoryInv(Written(r, op, ReadSnapshot(r), begun, now))
  {
    var target := Target(op);
    var w := Written(r, op, ReadSnapshot(r), begun, now);
    if IsPhase(target) && target != r.status {
      PhaseEnteredInOrder(r.status, target);
      var n := PhaseIndex(target);
      assert IsPrefix(r.phaseTimestamps, n);
      assert IsPrefix(w.phaseTimestamps, n + 1) by {
        forall p: Status ensures p in w.phaseTimestamps <==> IsPhase(p) && PhaseIndex(p) < n + 1 {
          if IsPhase(p) && PhaseIndex(p) == n { PhaseIndexInvertsPhases(p, n); PhaseIndexInvertsPhases(target, n); }
        }
      }
    } else {
      assert w.phaseTimestamps == r.phaseTimestamps;
    }
  }

  lemma EnteringKeepsTimes(r: Row, w: Row, p: Status, now: Time)
    requires TimesInv(r, now) && IsPhase(p) && IsPrefix(r.phaseTimestamps, PhaseIndex(p)) && r.queuedAt.Some?
    requires w.phaseTimestamps == r.phaseTimestamps[p := now] && w.queuedAt == r.queuedAt
    ensures TimesInv(w, now)
  {
  }

  lemma WriteKeepsTimes(r: Row, op: Op, begun: Time, now: Time)
    requires HistoryInv(r) && TimesInv(r, now) && Permitted(op, r.status)
    ensures TimesInv(Written(r, op, ReadSnapshot(r), begun, now), now)
  {
    var target := Target(op);
    var w := Written(r, op, ReadSnapshot(r), begun, now);
    assert w.queuedAt == r.queuedAt;
    if IsPhase(target) && target != r.status {
      PhaseEnteredInOrder(r.status, target);
      assert IsPrefix(r.phaseTimestamps, PhaseIndex(target));
      EnteringKeepsTimes(r, w, target, now);
    } else {
      assert w.phaseTimestamps == r.phaseTimestamps;
    }
  }

  lemma WriteKeepsFields(r: Row, op: Op, begun: Time, now: Time)
    requires LeaseFieldsInv(r) && OutcomeInv(r) && CancelInv(r) && Permitted(op, r.status)
    ensures var w := Written(r, op, ReadSnapshot(r), begun, now);
            LeaseFieldsInv(w) && OutcomeInv(w) && CancelInv(w)
  {
  }

  lemma TimesLater(r: Row, early: Time, late: Time)
    requires TimesInv(r, early) && early <= late
    ensures TimesInv(r, late)
  {
  }

  // ---------- Steps ----------

  /** How a row may differ after a write: deeper status, or the same status, history and queue time. */
  predicate Moved(r: Row, w: Row) {
    || Depth(r.status) < Depth(w.status)
    || (ReadSnapshot(w) == ReadSnapshot(r) && w.queuedAt == r.queuedAt)
  }

  lemma OtherActorsKeep(actor: Actor, r: Row, w: Row, clock: Time)
    requires ActorInv(actor, r, clock) && Moved(r, w)
    ensures ActorInv(actor, w, clock)
  {
  }

  lemma MoveKeepsActors(s: System, row: Row)
    requires Inv(s) && Moved(s.row, row)
    ensures forall a :: a in s.actors ==> ActorInv(s.actors[a], row, s.clock)
  {
    forall a | a in s.actors ensures ActorInv(s.actors[a], row, s.clock) {
      OtherActorsKeep(s.actors[a], s.row, row, s.clock);
    }
  }

  lemma TickKeepsInv(s: System, elapsed: nat)
    requires Inv(s)
    ensures Inv(Step(s, Tick(elapsed)))
  {
    TimesLater(s.row, s.clock, s.clock + elapsed);
  }

  lemma EnqueueKeepsInv(s: System, now: Time)
    requires Inv(s)
    ensures Inv(Step(s, Enqueue(now)))
  {
    if now <= s.clock && IsEnqueueable(s.row) {
      var w := QueuedIfCreated(s.row, now);
      MoveKeepsActors(s, w);
      assert IsPrefix(w.phaseTimestamps, 0);
      assert HistoryInv(w);
    }
  }

  lemma RenewKeepsInv(s: System, runner: RunnerId, leaseMs: int, now: Time)
    requires Inv(s)
    ensures Inv(Step(s, Renew(runner, leaseMs, now)))
  {
    if now <= s.clock && IsRenewable(s.row, runner) {
      MoveKeepsActors(s, Renewed(s.row, runner, leaseMs, now));
    }
  }

  /** A write whose condition holds finds the row exactly as its read half saw it. */
  lemma SuccessfulWriteSawTheRow(s: System, a: nat)
    requires Inv(s) && ActorOf(s, a).job.HasRead?
    requires var job := ActorOf(s, a).job; Matches(s.row, job.op, job.seen, job.begun)
    ensures ActorOf(s, a).job.seen == ReadSnapshot(s.row)
    ensures Permitted(ActorOf(s, a).job.op, s.row.status)
  {
    assert ActorInv(s.actors[a], s.row, s.clock);
  }

  lemma WriteKeepsRowInv(s: System, a: nat, now: Time)
    requires Inv(s) && ActorOf(s, a).job.HasRead? && ActorOf(s, a).job.readAt <= now <= s.clock
    ensures RowInv(Finish(s, a, now).row, s.clock) && Moved(s.row, Finish(s, a, now).row)
    ensures Finish(s, a, now).changes <= Depth(Finish(s, a, now).row.status)
  {
    var job := ActorOf(s, a).job;
    assert ActorInv(s.actors[a], s.row, s.clock);
    if Matches(s.row, job.op, job.seen, job.begun) {
      SuccessfulWriteSawTheRow(s, a);
      var w := Written(s.row, job.op, job.seen, job.begun, now);
      WriteDescends(s.row, job.op, job.begun, now);
      WriteKeepsHistory(s.row, job.op, job.begun, now);
      TimesLater(s.row, job.readAt, now);
      WriteKeepsTimes(s.row, job.op, job.begun, now);
      TimesLater(w, now, s.clock);
      WriteKeepsFields(s.row, job.op, job.begun, now);
      assert Finish(s, a, now).row == w;
    }
  }

  /** A claim takes effect after every earlier lease has expired. */
  lemma ClaimKeepsLeases(s: System, t: System, lease: Lease)
    requires LeasesInv(s) && LeaseFieldsInv(s.row)
    requires s.row.leaseExpiresAt.None? || s.row.leaseExpiresAt.value < lease.effectiveAt
    requires !IsTerminal(s.row.status)
    requires t.leases == s.leases + [lease] && t.clock == s.clock == lease.effectiveAt
    requires t.row.attempt == s.row.attempt + 1 && t.row.leaseExpiresAt == Some(lease.expiresAt)
    requires t.row.runnerId == Some(lease.runner)
    ensures LeasesInv(t)
  {
    var n := |s.leases|;
    forall i, j | 0 <= i < j < |t.leases| ensures t.leases[i].expiresAt < t.leases[j].effectiveAt {
      if j == n && i < n - 1 {
        assert s.leases[i].expiresAt < s.leases[n - 1].effectiveAt <= s.clock;
      }
    }
  }

  lemma OtherWritesKeepLeases(s: System, t: System)
    requires LeasesInv(s) && t.leases == s.leases && t.clock == s.clock
    requires t.row.attempt == s.row.attempt
    requires HasLease(t.row) ==>
               HasLease(s.row) && t.row.leaseExpiresAt == s.row.leaseExpiresAt && t.row.runnerId == s.row.runnerId
    ensures LeasesInv(t)
  {
  }

  lemma FinishKeepsLeases(s: System, a: nat, now: Time)
    requires LeasesInv(s) && LeaseFieldsInv(s.row) && ActorOf(s, a).job.HasRead?
    requires var job := ActorOf(s, a).job; Permitted(job.op, job.seen.status) && job.begun <= s.clock
    ensures LeasesInv(Finish(s, a, now))
  {
    var job := ActorOf(s, a).job;
    var t := Finish(s, a, now);
    if Matches(s.row, job.op, job.seen, job.begun) && job.op.Claim? {
      ClaimKeepsLeases(s, t, Lease(job.op.runner, s.clock, job.begun + job.op.leaseMs));
    } else {
      OtherWritesKeepLeases(s, t);
    }
  }

  lemma FinishKeepsActors(s: System, a: nat, now: Time)
    requires forall b :: b in s.actors ==> ActorInv(s.actors[b], s.row, s.clock)
    requires ActorOf(s, a).job.HasRead? && Moved(s.row, Finish(s, a, now).row)
    ensures var t := Finish(s, a, now);
            forall b :: b in t.actors ==> ActorInv(t.actors[b], t.row, t.clock)
  {
    var t := Finish(s, a, now);
    forall b | b in t.actors ensures ActorInv(t.actors[b], t.row, t.clock) {
      if b == a {
        assert t.actors[a].job.Idle?;
      } else {
        assert b in s.actors && t.actors[b] == s.actors[b];
        OtherActorsKeep(s.actors[b], s.row, t.row, s.clock);
      }
    }
  }

  lemma WriteKeepsInv(s: System, a: nat, now: Time)
    requires Inv(s)
    ensures Inv(Step(s, Write(a, now)))
  {
    var job := ActorOf(s, a).job;
    if job.HasRead? && job.readAt <= now <= s.clock {
      assert ActorInv(s.actors[a], s.row, s.clock);
      WriteKeepsRowInv(s, a, now);
      FinishKeepsLeases(s, a, now);
      FinishKeepsActors(s, a, now);
    }
  }

  lemma ReadKeepsInv(s: System, a: nat)
    requires Inv(s)
    ensures Inv(Step(s, Read(a)))
  {
  }

  lemma StepKeepsInv(s: System, e: Event)
    requires Inv(s)
    ensures Inv(Step(s, e))
  {
    match e
    case Tick(elapsed) => TickKeepsInv(s, elapsed);
    case Begin(a, op) =>
    case Read(a) => ReadKeepsInv(s, a);
    case Write(a, now) => WriteKeepsInv(s, a, now);
    case Observe(a) =>
    case Enqueue(now) => EnqueueKeepsInv(s, now);
    case Renew(runner, leaseMs, now) => RenewKeepsInv(s, runner, leaseMs, now);
    case Crash(a) =>
  }

  lemma InitialInv(start: Time)
    ensures Inv(Initial(start))
  {
    assert IsPrefix(NEW_ROW.phaseTimestamps, 0);
  }

  /** The invariants hold after every interleaving of any operations by any number of actors. */
  lemma {:induction false} ExecKeepsInv(s: System, events: seq<Event>)
    requires Inv(s)
    ensures Inv(Exec(s, events))
    decreases |events|
  {
    if events != [] {
      StepKeepsInv(s, events[0]);
      ExecKeepsInv(Step(s, events[0]), events[1..]);
    }
  }

  lemma Reachable(start: Time, events: seq<Event>)
    ensures Inv(Exec(Initial(start), events))
  {
    InitialInv(start);
    ExecKeepsInv(Initial(start), events);
  }
}
