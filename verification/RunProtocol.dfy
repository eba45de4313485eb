/**
 * API, workers, heartbeat timers and the janitor share one row. Every actor runs its operations in
 * separate steps, so any other actor's step can come between a read and the write that depends on it.
 */
module RunProtocol {
  import opened Wrappers
  import opened RunStatus
  import opened RunRow

  datatype Job =
    | Idle
    | Begun(op: Op, begun: Time)
    | HasRead(op: Op, begun: Time, seen: Snapshot, readAt: Time)

  /** `sawCancel`: this actor has seen the cancellation accepted. `entered`: the last phase it entered. */
  datatype Actor = Actor(job: Job, sawCancel: bool, entered: Option<Status>)

  const FRESH_ACTOR := Actor(Idle, false, None)

  /** One claim: when its write took effect, and the last expiry that it or its renewals wrote. */
  datatype Lease = Lease(runner: RunnerId, effectiveAt: Time, expiresAt: Time)

  /** `leases` and `changes` record the history of claims and of status changes; no step reads them. */
  datatype System = System(row: Row, clock: Time, actors: map<nat, Actor>, leases: seq<Lease>, changes: nat)

  datatype Event =
    | Tick(elapsed: nat)
    | Begin(actor: nat, op: Op)
    | Read(actor: nat)
    | Write(actor: nat, now: Time)
    | Observe(actor: nat)
    | Enqueue(now: Time)
    | Renew(runner: RunnerId, leaseMs: int, now: Time)
    | Crash(actor: nat)

  function Initial(start: Time): System {
    System(NEW_ROW, start, map[], [], 0)
  }

  function ActorOf(s: System, a: nat): Actor {
    if a in s.actors then s.actors[a] else FRESH_ACTOR
  }

  function WithActor(s: System, a: nat, actor: Actor): System {
    s.(actors := s.actors[a := actor])
  }

  /** Replaces the row, counting a change of status. */
  function WithRow(s: System, row: Row): System {
    s.(row := row, changes := s.changes + if row.status == s.row.status then 0 else 1)
  }

  /** The write half of the operation that actor `a` has read the row for. */
  function Finish(s: System, a: nat, now: Time): System
    requires ActorOf(s, a).job.HasRead?
  {
    var actor := ActorOf(s, a);
    var job := actor.job;
    var done := WithActor(s, a, actor.(job := Idle));
    if !Matches(s.row, job.op, job.seen, job.begun) then done
    else
      var written := WithRow(done, Written(s.row, job.op, job.seen, job.begun, now));
      match job.op
      case Claim(runner, leaseMs) =>
        written.(leases := s.leases + [Lease(runner, s.clock, job.begun + leaseMs)])
      case EnterPhase(phase) => WithActor(written, a, actor.(job := Idle, entered := Some(phase)))
      case RequestCancel => WithActor(written, a, actor.(job := Idle, sawCancel := true))
      case _ => written
  }

  function Extended(leases: seq<Lease>, expiresAt: Time): seq<Lease> {
    if leases == [] then []
    else leases[..|leases| - 1] + [leases[|leases| - 1].(expiresAt := expiresAt)]
  }

  /** The effect of an event; an event that is not enabled changes nothing. */
  function Step(s: System, e: Event): System {
    match e
    case Tick(elapsed) => s.(clock := s.clock + elapsed)
    case Begin(a, op) =>
      if ActorOf(s, a).job.Idle? then WithActor(s, a, ActorOf(s, a).(job := Begun(op, s.clock))) else s
    case Read(a) =>
      var actor := ActorOf(s, a);
      if actor.job.Begun? then
        WithActor(s, a, actor.(job :=
          if Permitted(actor.job.op, s.row.status)
          then HasRead(actor.job.op, actor.job.begun, ReadSnapshot(s.row), s.clock)
          else Idle))
      else s
    case Write(a, now) =>
      var actor := ActorOf(s, a);
      if actor.job.HasRead? && actor.job.readAt <= now <= s.clock then Finish(s, a, now) else s
    case Observe(a) =>
      WithActor(s, a, ActorOf(s, a).(sawCancel := ActorOf(s, a).sawCancel || CancellationSeen(s.row)))
    case Enqueue(now) => if now <= s.clock then WithRow(s, QueuedIfCreated(s.row, now)) else s
    case Renew(runner, leaseMs, now) =>
      if now <= s.clock && IsRenewable(s.row, runner) then
        s.(row := Renewed(s.row, runner, leaseMs, now), leases := Extended(s.leases, now + leaseMs))
      else s
    case Crash(a) => WithActor(s, a, FRESH_ACTOR)
  }

  function Exec(s: System, events: seq<Event>): System
    decreases |events|
  {
    if events == [] then s else Exec(Step(s, events[0]), events[1..])
  }

  /**
   * What the callers of the state service add: a run is marked cancelled only by an actor that saw the
   * cancellation, and a verdict is written only after the cleanup phase, by the outcome of the tests.
   */
  predicate Disciplined(s: System, e: Event) {
    e.Begin? ==>
      var actor := ActorOf(s, e.actor);
      && (e.op.MarkCancelled? ==> actor.sawCancel)
      && (e.op.MarkPassed? ==> actor.entered == Some(CleaningUp) && e.op.stats.failed == 0)
      && (e.op.MarkTestFailed? ==> actor.entered == Some(CleaningUp) && e.op.stats.failed > 0)
  }

  predicate DisciplinedRun(s: System, events: seq<Event>)
    decreases |events|
  {
    events != [] ==> Disciplined(s, events[0]) && DisciplinedRun(Step(s, events[0]), events[1..])
  }

  // ---------- Invariants of the row ----------

  /** The keys of `history` are the first `n` phases and nothing else. */
  ghost predicate IsPrefix(history: map<Status, Time>, n: nat) {
    forall p: Status :: p in history <==> IsPhase(p) && PhaseIndex(p) < n
  }

  ghost predicate HistoryInv(r: Row) {
    && (exists n: nat :: n <= |PHASES| && IsPrefix(r.phaseTimestamps, n))
    && (Depth(r.status) <= 2 ==> IsPrefix(r.phaseTimestamps, 0))
    && (IsPhase(r.status) ==> IsPrefix(r.phaseTimestamps, PhaseIndex(r.status) + 1))
    && (r.status == Passed ==> IsPrefix(r.phaseTimestamps, |PHASES|))
  }

  ghost predicate TimesInv(r: Row, clock: Time) {
    && (forall p: Status :: p in r.phaseTimestamps ==> r.phaseTimestamps[p] <= clock)
    && Ascending(r.phaseTimestamps)
    && (r.queuedAt.Some? ==> r.queuedAt.value <= clock && NotBefore(r.queuedAt.value, r.phaseTimestamps))
    && (r.queuedAt.None? ==> IsPrefix(r.phaseTimestamps, 0) && (r.status == Created || r.status == InfraFailed))
  }

  /** Later phases carry later timestamps. */
  ghost predicate Ascending(history: map<Status, Time>) {
    forall p: Status, q: Status | p in history && q in history && IsPhase(p) && IsPhase(q) ::
      PhaseIndex(p) <= PhaseIndex(q) ==> history[p] <= history[q]
  }

  ghost predicate NotBefore(t: Time, history: map<Status, Time>) {
    forall p: Status :: p in history ==> t <= history[p]
  }

  predicate NoLease(r: Row) {
    r.runnerId.None? && r.leaseAcquiredAt.None? && r.leaseExpiresAt.None? && r.heartbeatAt.None?
  }

  predicate HasLease(r: Row) {
    r.runnerId.Some? && r.leaseAcquiredAt.Some? && r.leaseExpiresAt.Some? && r.heartbeatAt.Some?
  }

  predicate LeaseFieldsInv(r: Row) {
    && (NoLease(r) || HasLease(r))
    && (IsDriven(r.status) ==> HasLease(r))
    && (r.status == Created || r.status == Queued ==> r.attempt == 0)
    && (r.attempt == 0 || IsTerminal(r.status) ==> NoLease(r))
    && (r.attempt > 0 && !IsTerminal(r.status) ==> HasLease(r))
  }

  predicate OutcomeInv(r: Row) {
    && (IsTerminal(r.status) <==> r.finishedAt.Some?)
    && (!IsTerminal(r.status) ==> r.failureCategory.None?)
    && (r.status == Passed ==> r.failureCategory.None?)
    && (r.status == TestFailed ==> r.failureCategory == Some(TestAssertion))
    && (r.status == InfraFailed ==> r.failureCategory.Some?)
    && (r.status == TimedOut ==> r.failureCategory == Some(Timeout))
    && (r.status == Cancelled ==> r.failureCategory == Some(Cancellation))
  }

  predicate CancelInv(r: Row) {
    && r.cancellationRequestedAt == r.cancelRequestedAt
    && (r.cancelRequestedAt.Some? ==> r.status == CancelRequested || r.status == Cancelled)
    && (r.status == CancelRequested ==> r.cancelRequestedAt.Some?)
  }

  ghost predicate RowInv(r: Row, clock: Time) {
    && r.currentPhase == (if IsPhase(r.status) then Some(r.status) else None)
    && HistoryInv(r)
    && TimesInv(r, clock)
    && LeaseFieldsInv(r)
    && OutcomeInv(r)
    && CancelInv(r)
  }

  // ---------- Invariants of actors and of the history ----------

  /** Either the row has not moved since the snapshot, or its status has gone deeper for good. */
  predicate SnapshotInv(seen: Snapshot, r: Row) {
    || seen == ReadSnapshot(r)
    || Depth(seen.status) < Depth(r.status)
  }

  ghost predicate ActorInv(actor: Actor, r: Row, clock: Time) {
    && (actor.job.Begun? ==> actor.job.begun <= clock)
    && (actor.job.HasRead? ==>
          && actor.job.begun <= actor.job.readAt <= clock
          && Permitted(actor.job.op, actor.job.seen.status)
          && SnapshotInv(actor.job.seen, r)
          && (actor.job.seen.status == r.status ==> TimesInv(r, actor.job.readAt)))
  }

  ghost predicate LeasesInv(s: System) {
    && |s.leases| == s.row.attempt
    && (HasLease(s.row) ==>
          && s.leases != [] && s.leases[|s.leases| - 1].expiresAt == s.row.leaseExpiresAt.value
          && s.leases[|s.leases| - 1].runner == s.row.runnerId.value)
    && (forall i :: 0 <= i < |s.leases| ==> s.leases[i].effectiveAt <= s.clock)
    && (forall i, j :: 0 <= i < j < |s.leases| ==> s.leases[i].expiresAt < s.leases[j].effectiveAt)
  }

  ghost predicate Inv(s: System) {
    && RowInv(s.row, s.clock)
    && (forall a :: a in s.actors ==> ActorInv(s.actors[a], s.row, s.clock))
    && LeasesInv(s)
    && s.changes <= Depth(s.row.status)
  }
}
