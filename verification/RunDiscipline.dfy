/** What holds in addition when the callers call the state service the way they do. */
module RunDiscipline {
  import opened Wrappers
  import opened RunStatus
  import opened RunRow
  import opened RunProtocol
  import opened RunProtocolProofs
  import opened RunTheorems

  /** The cleanup phase was entered, and not after `t`. */
  predicate CleanedUpBy(r: Row, t: Time) {
    CleaningUp in r.phaseTimestamps && r.phaseTimestamps[CleaningUp] <= t
  }

  predicate OpInv(op: Op, begun: Time, r: Row) {
    && (op.MarkCancelled? ==> r.cancelRequestedAt.Some?)
    && (op.MarkPassed? ==> op.stats.failed == 0 && CleanedUpBy(r, begun))
    && (op.MarkTestFailed? ==> op.stats.failed > 0 && CleanedUpBy(r, begun))
  }

  predicate CallerInv(actor: Actor, r: Row) {
    && (actor.sawCancel ==> r.cancelRequestedAt.Some?)
    && (actor.entered == Some(CleaningUp) ==> CleaningUp in r.phaseTimestamps)
    && (actor.job.Begun? || actor.job.HasRead? ==> OpInv(actor.job.op, actor.job.begun, r))
  }

  /** A verdict agrees with the failed tests counted, and comes after the whole phase history. */
  ghost predicate VerdictInv(r: Row) {
    && (r.status == Cancelled ==> r.cancelRequestedAt.Some?)
    && (r.status == Passed ==> r.stats.failed == 0)
    && (r.status == TestFailed ==> r.stats.failed > 0)
    && (r.status == Passed || r.status == TestFailed ==>
          && IsPrefix(r.phaseTimestamps, |PHASES|)
          && r.finishedAt.Some? && CleanedUpBy(r, r.finishedAt.value))
  }

  ghost predicate DisciplinedInv(s: System) {
    && VerdictInv(s.row)
    && forall a :: a in s.actors ==> CallerInv(s.actors[a], s.row)
  }

  lemma CallersKeep(actor: Actor, r: Row, w: Row)
    requires CallerInv(actor, r) && Keeps(r, w)
    ensures CallerInv(actor, w)
  {
  }

  /** The permitted write of a disciplined operation. */
  lemma WriteKeepsVerdict(r: Row, op: Op, begun: Time, now: Time)
    requires VerdictInv(r) && HistoryInv(r) && CancelInv(r) && Permitted(op, r.status) && OpInv(op, begun, r)
    ensures VerdictInv(Written(r, op, ReadSnapshot(r), begun, now))
  {
    if op.MarkPassed? || op.MarkTestFailed? {
      assert r.status == CleaningUp;
    }
  }

  lemma WriteStepKeepsDiscipline(s: System, a: nat, now: Time)
    requires Inv(s) && DisciplinedInv(s) && WriteSucceeds(s, a, now)
    ensures DisciplinedInv(Step(s, Write(a, now)))
  {
    var job := ActorOf(s, a).job;
    var t := Step(s, Write(a, now));
    SuccessfulWriteSawTheRow(s, a);
    StepKeeps(s, Write(a, now));
    assert CallerInv(s.actors[a], s.row);
    WriteKeepsVerdict(s.row, job.op, job.begun, now);
    assert t.row == Written(s.row, job.op, job.seen, job.begun, now);
    forall b | b in t.actors ensures CallerInv(t.actors[b], t.row) {
      if b != a {
        assert b in s.actors && t.actors[b] == s.actors[b];
      }
      CallersKeep(s.actors[b], s.row, t.row);
    }
  }

  lemma OtherStepsKeepDiscipline(s: System, e: Event)
    requires Inv(s) && DisciplinedInv(s) && Disciplined(s, e)
    requires !(e.Write? && WriteSucceeds(s, e.actor, e.now))
    ensures DisciplinedInv(Step(s, e))
  {
    var t := Step(s, e);
    StepKeeps(s, e);
    assert VerdictInv(t.row);
    forall b | b in t.actors ensures CallerInv(t.actors[b], t.row) {
      if b in s.actors {
        CallersKeep(s.actors[b], s.row, t.row);
      }
      if e.Begin? && b == e.actor {
        assert TimesInv(s.row, s.clock);
      }
    }
  }

  lemma {:induction false} DisciplinedReachable(s: System, events: seq<Event>)
    requires Inv(s) && DisciplinedInv(s) && DisciplinedRun(s, events)
    ensures Inv(Exec(s, events)) && DisciplinedInv(Exec(s, events))
    decreases |events|
  {
    if events != [] {
      var e := events[0];
      StepKeepsInv(s, e);
      if e.Write? && WriteSucceeds(s, e.actor, e.now) {
        WriteStepKeepsDiscipline(s, e.actor, e.now);
      } else {
        OtherStepsKeepDiscipline(s, e);
      }
      DisciplinedReachable(Step(s, e), events[1..]);
    }
  }

  lemma InitialDiscipline(start: Time)
    ensures Inv(Initial(start)) && DisciplinedInv(Initial(start))
  {
    InitialInv(start);
  }

  /** A run is cancelled only if a cancellation was accepted before. */
  lemma CancelledOnlyIfRequested(start: Time, events: seq<Event>)
    requires DisciplinedRun(Initial(start), events)
    ensures var r := Exec(Initial(start), events).row; r.status == Cancelled ==> r.cancelRequestedAt.Some?
  {
    InitialDiscipline(start);
    DisciplinedReachable(Initial(start), events);
  }

  lemma CleanupStays(s: System, e: Event)
    requires Inv(s) && DisciplinedInv(s) && s.row.status == CleaningUp
    ensures Step(s, e).row.status != Cancelled
  {
    if e.Write? && WriteSucceeds(s, e.actor, e.now) {
      assert CallerInv(s.actors[e.actor], s.row);
    }
  }

  /** The edge from CLEANING_UP to CANCELLED, which the table has, is never taken. */
  lemma CleanupIsNeverCancelled(start: Time, events: seq<Event>, e: Event)
    requires DisciplinedRun(Initial(start), events) && Disciplined(Exec(Initial(start), events), e)
    ensures var s := Exec(Initial(start), events);
            s.row.status == CleaningUp ==> Step(s, e).row.status != Cancelled
  {
    InitialDiscipline(start);
    DisciplinedReachable(Initial(start), events);
    hide Inv, DisciplinedInv, DisciplinedRun, Step;
    var s := Exec(Initial(start), events);
    if s.row.status == CleaningUp { CleanupStays(s, e); }
  }

  /** A verdict is the one the test counts call for, and follows all eight phases. */
  lemma VerdictMatchesStats(start: Time, events: seq<Event>)
    requires DisciplinedRun(Initial(start), events)
    ensures var r := Exec(Initial(start), events).row;
            && (r.status == Passed ==> r.stats.failed == 0)
            && (r.status == TestFailed ==> r.stats.failed > 0)
            && (r.status == Passed || r.status == TestFailed ==>
                  && IsPrefix(r.phaseTimestamps, |PHASES|) && r.finishedAt.Some?
                  && r.phaseTimestamps[CleaningUp] <= r.finishedAt.value)
  {
    InitialDiscipline(start);
    DisciplinedReachable(Initial(start), events);
  }
}
