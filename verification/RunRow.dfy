/** The stored row of one test run, and what each operation of the state service reads and writes. */
module RunRow {
  import opened Wrappers
  import opened RunStatus

  type Time = int
  type RunnerId = string

  datatype Category =
    | TestAssertion | EnvironmentValidation | ImagePull | ContainerStart | Healthcheck
    | Network | Timeout | Cancellation | Internal

  datatype Stats = Stats(total: nat, passed: nat, failed: nat)

  /** `phaseTimestamps` is the JSON column: a null column and an empty object are both the empty map. */
  datatype Row = Row(
    status: Status,
    currentPhase: Option<Status>,
    phaseTimestamps: map<Status, Time>,
    queuedAt: Option<Time>,
    enqueuedAt: Option<Time>,
    claimedAt: Option<Time>,
    startedAt: Option<Time>,
    cancelRequestedAt: Option<Time>,
    cancellationRequestedAt: Option<Time>,
    runnerId: Option<RunnerId>,
    leaseAcquiredAt: Option<Time>,
    leaseExpiresAt: Option<Time>,
    heartbeatAt: Option<Time>,
    attempt: nat,
    finishedAt: Option<Time>,
    failureCategory: Option<Category>,
    stats: Stats)

  /** The row `create` inserts. */
  const NEW_ROW := Row(Created, None, map[], None, None, None, None, None, None, None, None, None, None,
                       0, None, None, Stats(0, 0, 0))

  /** Operations that read the row first and then write it if its status has not changed. */
  datatype Op =
    | Claim(runner: RunnerId, leaseMs: int)
    | EnterPhase(phase: Status)
    | RequestCancel
    | MarkCancelled
    | MarkPassed(stats: Stats)
    | MarkTestFailed(stats: Stats)
    | MarkInfraFailed(category: Category)
    | MarkTimedOut

  /** What the first half of an operation remembers of the row. */
  datatype Snapshot = Snapshot(status: Status, phaseTimestamps: map<Status, Time>)

  function Target(op: Op): Status {
    match op
    case Claim(_, _) => Claimed
    case EnterPhase(phase) => phase
    case RequestCancel => Status.CancelRequested
    case MarkCancelled => Cancelled
    case MarkPassed(_) => Passed
    case MarkTestFailed(_) => TestFailed
    case MarkInfraFailed(_) => InfraFailed
    case MarkTimedOut => TimedOut
  }

  /** The check between the two halves: an operation whose check fails throws and writes nothing. */
  predicate Permitted(op: Op, from: Status) {
    && (op.EnterPhase? ==> IsPhase(op.phase))
    && CanTransition(from, Target(op))
  }

  function ReadSnapshot(row: Row): Snapshot {
    Snapshot(row.status, row.phaseTimestamps)
  }

  function NextPhaseTimestamps(seen: map<Status, Time>, target: Status, now: Time): map<Status, Time> {
    if target in seen then seen else seen[target := now]
  }

  function ClearLease(row: Row): Row {
    row.(runnerId := None, leaseAcquiredAt := None, leaseExpiresAt := None, heartbeatAt := None)
  }

  /** The columns an operation sets besides status, phase and phase timestamps; `begun` is its first clock reading. */
  function WithData(row: Row, op: Op, begun: Time): Row {
    match op
    case Claim(runner, leaseMs) =>
      row.(runnerId := Some(runner), leaseAcquiredAt := Some(begun), leaseExpiresAt := Some(begun + leaseMs),
           heartbeatAt := Some(begun), attempt := row.attempt + 1, claimedAt := Some(begun),
           startedAt := Some(begun), failureCategory := None)
    case EnterPhase(_) => row
    case RequestCancel => row.(cancelRequestedAt := Some(begun), cancellationRequestedAt := Some(begun))
    case MarkCancelled => ClearLease(row.(finishedAt := Some(begun), failureCategory := Some(Cancellation)))
    case MarkPassed(stats) => ClearLease(row.(finishedAt := Some(begun), failureCategory := None, stats := stats))
    case MarkTestFailed(stats) =>
      ClearLease(row.(finishedAt := Some(begun), failureCategory := Some(TestAssertion), stats := stats))
    case MarkInfraFailed(category) => ClearLease(row.(finishedAt := Some(begun), failureCategory := Some(category)))
    case MarkTimedOut => ClearLease(row.(finishedAt := Some(begun), failureCategory := Some(Timeout)))
  }

  /** The `where` of the second half: the status still is the one seen, and a claim finds no live lease. */
  predicate Matches(row: Row, op: Op, seen: Snapshot, begun: Time) {
    && row.status == seen.status
    && (op.Claim? ==> row.leaseExpiresAt.None? || row.leaseExpiresAt.value < begun)
  }

  /** The second half's `data`, computed from the snapshot `seen`; `now` is the clock reading between the halves. */
  function Written(row: Row, op: Op, seen: Snapshot, begun: Time, now: Time): Row {
    var target := Target(op);
    WithData(row, op, begun).(
    status := target,
    currentPhase := if IsPhase(target) then Some(target) else None,
    phaseTimestamps :=
      if IsPhase(target) then NextPhaseTimestamps(seen.phaseTimestamps, target, now) else row.phaseTimestamps)
  }

  function CompareAndSwap(row: Row, op: Op, seen: Snapshot, begun: Time, now: Time): Row {
    if Matches(row, op, seen, begun) then Written(row, op, seen, begun, now) else row
  }

  /** Reading, checking and writing in one indivisible step: what the two halves are meant to amount to. */
  function Atomically(row: Row, op: Op, begun: Time, now: Time): Row {
    if Permitted(op, row.status) then CompareAndSwap(row, op, ReadSnapshot(row), begun, now) else row
  }

  predicate IsEnqueueable(row: Row) {
    row.status == Created && row.finishedAt.None? && row.cancelRequestedAt.None? && row.cancellationRequestedAt.None?
  }

  function QueuedIfCreated(row: Row, now: Time): Row {
    if IsEnqueueable(row) then
      ClearLease(row.(status := Queued, queuedAt := Some(now), enqueuedAt := Some(now), failureCategory := None))
    else row
  }

  predicate IsRenewable(row: Row, runner: RunnerId) {
    row.runnerId == Some(runner) && row.finishedAt.None? && !IsTerminal(row.status)
  }

  function Renewed(row: Row, runner: RunnerId, leaseMs: int, now: Time): Row {
    if IsRenewable(row, runner) then row.(heartbeatAt := Some(now), leaseExpiresAt := Some(now + leaseMs)) else row
  }

  /** What `isCancellationRequested` answers. */
  predicate CancellationSeen(row: Row) {
    || row.status == Status.CancelRequested || row.status == Cancelled
    || row.cancelRequestedAt.Some? || row.cancellationRequestedAt.Some?
  }
}
