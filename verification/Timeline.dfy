/** The phase timeline shown for a run, and why it tiles the time the run took. */
module Timeline {
  import opened Wrappers
  import opened RunStatus
  import opened RunRow
  import opened RunProtocol
  import opened RunProtocolProofs
  import opened RunTheorems
  import opened RunDiscipline

  datatype EntryStatus = Pending | Skipped | Failed | Active | Completed

  datatype Entry = Entry(status: EntryStatus, startedAt: Option<Time>, finishedAt: Option<Time>, durationMs: Option<nat>)

  /** Entry 0 is `queued`; entry `k > 0` stands for phase `PHASES[k - 1]`. */
  const ENTRIES: nat := 9

  /** The entries of image preparation and environment startup, skipped without docker compose. */
  predicate IsDockerEntry(k: nat) {
    k == 3 || k == 4
  }

  function StartOf(r: Row, k: nat): Option<Time>
    requires k < ENTRIES
  {
    if k == 0 then
      if r.queuedAt.Some? then r.queuedAt
      else if Queued in r.phaseTimestamps then Some(r.phaseTimestamps[Queued]) else None
    else if PHASES[k - 1] in r.phaseTimestamps then Some(r.phaseTimestamps[PHASES[k - 1]])
    else None
  }

  /** The first start among the entries from `k` on. */
  function NextStart(r: Row, k: nat): Option<Time>
    requires k <= ENTRIES
    decreases ENTRIES - k
  {
    if k == ENTRIES then None
    else if StartOf(r, k).Some? then StartOf(r, k)
    else NextStart(r, k + 1)
  }

  function FinishOf(r: Row, k: nat): Option<Time>
    requires k < ENTRIES
  {
    var next := NextStart(r, k + 1);
    if next.Some? then next else if k == ENTRIES - 1 then r.finishedAt else None
  }

  /** The last entry among the first `k` whose phase has a timestamp. */
  function LastStarted(r: Row, k: nat): Option<nat>
    requires k <= ENTRIES
  {
    if k == 0 then None
    else if k == 1 then if Queued in r.phaseTimestamps || Claimed in r.phaseTimestamps then Some(0) else None
    else if PHASES[k - 2] in r.phaseTimestamps then Some(k - 1)
    else LastStarted(r, k - 1)
  }

  function FailedEntry(r: Row): Option<nat> {
    if !IsTerminal(r.status) || r.status == Passed then None
    else
      match r.failureCategory
      case Some(EnvironmentValidation) => Some(2)
      case Some(ImagePull) => Some(3)
      case Some(ContainerStart) => Some(4)
      case Some(Healthcheck) => Some(5)
      case Some(TestAssertion) => Some(6)
      case _ => LastStarted(r, ENTRIES)
  }

  function ActiveEntry(s: Status): Option<nat> {
    if s == Queued || s == Claimed then Some(0)
    else if IsPhase(s) then Some(PhaseIndex(s) + 1)
    else None
  }

  function EntryAt(r: Row, usesDocker: bool, k: nat): Entry
    requires k < ENTRIES
  {
    var started := StartOf(r, k);
    var finished := FinishOf(r, k);
    var status :=
      if !usesDocker && IsDockerEntry(k) && started.None? then Skipped
      else if FailedEntry(r) == Some(k) then Failed
      else if ActiveEntry(r.status) == Some(k) then Active
      else if started.Some? && (finished.Some? || IsTerminal(r.status)) then Completed
      else Pending;
    var duration :=
      if started.Some? && finished.Some? then
        Some(if finished.value >= started.value then finished.value - started.value else 0)
      else None;
    Entry(status, started, finished, duration)
  }

  function BuildPhaseTimeline(r: Row, usesDocker: bool): (timeline: seq<Entry>)
    ensures |timeline| == ENTRIES
    ensures forall k: nat :: k < ENTRIES ==> timeline[k] == EntryAt(r, usesDocker, k)
  {
    seq(ENTRIES, k requires 0 <= k < ENTRIES => EntryAt(r, usesDocker, k))
  }

  function TotalDuration(timeline: seq<Entry>): nat {
    if timeline == [] then 0 else timeline[0].durationMs.GetOr(0) + TotalDuration(timeline[1..])
  }

  // ---------- Rows with a prefix history ----------

  lemma StartsOfPrefix(r: Row, n: nat, k: nat)
    requires IsPrefix(r.phaseTimestamps, n) && 0 < k < ENTRIES
    ensures StartOf(r, k).Some? <==> k <= n
  {
    PhaseIndexInvertsPhases(PHASES[k - 1], k - 1);
  }

  /** The entries that have started are the first `n + 1`, so each one's next start is the next entry's. */
  lemma {:induction false} NextStartOfPrefix(r: Row, n: nat, k: nat)
    requires IsPrefix(r.phaseTimestamps, n) && 0 < k <= ENTRIES
    ensures k <= n && k < ENTRIES ==> NextStart(r, k) == StartOf(r, k) && StartOf(r, k).Some?
    ensures n < k ==> NextStart(r, k) == None
    decreases ENTRIES - k
  {
    if k < ENTRIES {
      StartsOfPrefix(r, n, k);
      if n < k {
        NextStartOfPrefix(r, n, k + 1);
      }
    }
  }

  lemma StartsAscend(r: Row, clock: Time, n: nat, k: nat)
    requires TimesInv(r, clock) && IsPrefix(r.phaseTimestamps, n) && r.queuedAt.Some?
    requires k < n && k + 1 < ENTRIES
    ensures StartOf(r, k).Some? && StartOf(r, k + 1).Some? && StartOf(r, k).value <= StartOf(r, k + 1).value
  {
    StartsOfPrefix(r, n, k + 1);
    PhaseIndexInvertsPhases(PHASES[k], k);
    if k > 0 {
      StartsOfPrefix(r, n, k);
      PhaseIndexInvertsPhases(PHASES[k - 1], k - 1);
    }
  }

  // ---------- A passed run ----------

  /** What a passed row looks like: the conditions a disciplined run establishes. */
  ghost predicate IsPassedRow(r: Row, clock: Time) {
    && r.status == Passed && TimesInv(r, clock) && IsPrefix(r.phaseTimestamps, |PHASES|)
    && r.queuedAt.Some? && r.finishedAt.Some? && CleanedUpBy(r, r.finishedAt.value)
  }

  /** The moment entry `k` ends: the start of the next one, or the end of the run. */
  function EndOf(r: Row, k: nat): Time
    requires k < ENTRIES && r.finishedAt.Some?
  {
    if k + 1 < ENTRIES then StartOf(r, k + 1).GetOr(0) else r.finishedAt.value
  }

  lemma PassedEntry(r: Row, clock: Time, usesDocker: bool, k: nat)
    requires IsPassedRow(r, clock) && k < ENTRIES
    ensures var e := EntryAt(r, usesDocker, k);
            && e.status == Completed
            && e.startedAt.Some? && e.finishedAt == Some(EndOf(r, k)) && e.startedAt.value <= EndOf(r, k)
            && e.durationMs == Some(EndOf(r, k) - e.startedAt.value)
  {
    var n := |PHASES|;
    if k > 0 { StartsOfPrefix(r, n, k); }
    NextStartOfPrefix(r, n, k + 1);
    if k + 1 < ENTRIES {
      StartsAscend(r, clock, n, k);
    } else {
      PhaseIndexInvertsPhases(CleaningUp, 7);
    }
  }

  lemma {:induction false} PassedDurations(r: Row, clock: Time, usesDocker: bool, k: nat)
    requires IsPassedRow(r, clock) && k < ENTRIES
    ensures TotalDuration(BuildPhaseTimeline(r, usesDocker)[k..]) == r.finishedAt.value - StartOf(r, k).GetOr(0)
    decreases ENTRIES - k
  {
    var timeline := BuildPhaseTimeline(r, usesDocker);
    PassedEntry(r, clock, usesDocker, k);
    assert timeline[k..][1..] == timeline[k + 1..];
    if k + 1 < ENTRIES {
      PassedDurations(r, clock, usesDocker, k + 1);
    }
  }

  lemma PassedRowsAreSo(start: Time, events: seq<Event>)
    requires DisciplinedRun(Initial(start), events) && Exec(Initial(start), events).row.status == Passed
    ensures var s := Exec(Initial(start), events); IsPassedRow(s.row, s.clock)
  {
    InitialDiscipline(start);
    DisciplinedReachable(Initial(start), events);
  }

  /** Nine completed entries, each ending where the next begins, none with a clamped duration. */
  predicate Tiles(timeline: seq<Entry>, from: Option<Time>, to: Option<Time>) {
    && |timeline| == ENTRIES
    && timeline[0].startedAt == from && timeline[ENTRIES - 1].finishedAt == to
    && (forall k: nat :: k < ENTRIES ==> IsExactEntry(timeline[k]))
    && (forall k: nat :: k < ENTRIES - 1 ==> timeline[k].finishedAt == timeline[k + 1].startedAt)
  }

  predicate IsExactEntry(e: Entry) {
    && e.status == Completed && e.startedAt.Some? && e.finishedAt.Some?
    && e.startedAt.value <= e.finishedAt.value && e.durationMs == Some(e.finishedAt.value - e.startedAt.value)
  }

  lemma PassedRowTiles(r: Row, clock: Time, usesDocker: bool)
    requires IsPassedRow(r, clock)
    ensures Tiles(BuildPhaseTimeline(r, usesDocker), r.queuedAt, r.finishedAt)
  {
    var timeline := BuildPhaseTimeline(r, usesDocker);
    forall k: nat | k < ENTRIES ensures IsExactEntry(timeline[k]) && timeline[k].finishedAt == Some(EndOf(r, k)) {
      PassedEntry(r, clock, usesDocker, k);
    }
    forall k: nat | k < ENTRIES - 1 ensures timeline[k].finishedAt == timeline[k + 1].startedAt {
      assert IsExactEntry(timeline[k + 1]);
    }
  }

  /** The timeline of a passed run tiles the time from queueing to the end, and its durations add up to it. */
  lemma TimelineTilesPassedRun(start: Time, events: seq<Event>, usesDocker: bool)
    requires DisciplinedRun(Initial(start), events) && Exec(Initial(start), events).row.status == Passed
    ensures var r := Exec(Initial(start), events).row;
            var timeline := BuildPhaseTimeline(r, usesDocker);
            && r.queuedAt.Some? && r.finishedAt.Some?
            && Tiles(timeline, r.queuedAt, r.finishedAt)
            && TotalDuration(timeline) == r.finishedAt.value - r.queuedAt.value
  {
    PassedRowsAreSo(start, events);
    var s := Exec(Initial(start), events);
    var timeline := BuildPhaseTimeline(s.row, usesDocker);
    PassedRowTiles(s.row, s.clock, usesDocker);
    PassedDurations(s.row, s.clock, usesDocker, 0);
    assert timeline[0..] == timeline;
  }

  // ---------- A run under way ----------

  /** A row in a phase has entered that phase and the earlier ones, and is neither finished nor failed. */
  ghost predicate IsRunningRow(r: Row) {
    IsPhase(r.status) && IsPrefix(r.phaseTimestamps, PhaseIndex(r.status) + 1) && r.queuedAt.Some? && r.finishedAt.None?
  }

  lemma RunningRow(start: Time, events: seq<Event>)
    requires IsPhase(Exec(Initial(start), events).row.status)
    ensures IsRunningRow(Exec(Initial(start), events).row)
  {
    Reachable(start, events);
  }

  lemma RunningEntry(r: Row, usesDocker: bool, k: nat)
    requires IsRunningRow(r) && k < ENTRIES
    ensures var current := PhaseIndex(r.status) + 1;
            var e := EntryAt(r, usesDocker, k);
            && (k < current ==> e.status == Completed && e.durationMs.Some?)
            && (k == current ==> e.status == Active && e.startedAt.Some? && e.finishedAt.None?)
            && (k > current ==>
                  && e.startedAt.None? && e.durationMs.None?
                  && e.status == if !usesDocker && IsDockerEntry(k) then Skipped else Pending)
  {
    var n := PhaseIndex(r.status) + 1;
    if k > 0 { StartsOfPrefix(r, n, k); }
    NextStartOfPrefix(r, n, k + 1);
  }

  /** During a phase the earlier entries are completed, its own is active, and the later ones wait or are skipped. */
  lemma TimelineOfRunningPhase(start: Time, events: seq<Event>, usesDocker: bool, k: nat)
    requires IsPhase(Exec(Initial(start), events).row.status) && k < ENTRIES
    ensures var r := Exec(Initial(start), events).row;
            var current := PhaseIndex(r.status) + 1;
            var e := BuildPhaseTimeline(r, usesDocker)[k];
            && (k < current ==> e.status == Completed && e.durationMs.Some?)
            && (k == current ==> e.status == Active && e.startedAt.Some? && e.finishedAt.None?)
            && (k > current ==>
                  && e.startedAt.None? && e.durationMs.None?
                  && e.status == if !usesDocker && PHASES[k - 1] in {PullingImages, StartingEnvironment}
                                 then Skipped else Pending)
  {
    RunningRow(start, events);
    RunningEntry(Exec(Initial(start), events).row, usesDocker, k);
  }

  // ---------- A run stopped early ----------

  lemma {:induction false} LastStartedOfPrefix(r: Row, n: nat, k: nat)
    requires IsPrefix(r.phaseTimestamps, n) && n < k <= ENTRIES
    ensures LastStarted(r, k) == if n == 0 then None else Some(n)
    decreases k
  {
    if k > 1 {
      PhaseIndexInvertsPhases(PHASES[k - 2], k - 2);
      if n < k - 1 {
        LastStartedOfPrefix(r, n, k - 1);
      }
    }
  }

  /** The categories that do not tell which phase failed. */
  predicate NamesNoPhase(category: Option<Category>) {
    && category.Some?
    && (category.value.Cancellation? || category.value.Timeout? || category.value.Network? || category.value.Internal?)
  }

  lemma CategorizedIsTerminal(r: Row)
    requires OutcomeInv(r) && r.failureCategory.Some?
    ensures IsTerminal(r.status) && r.status != Passed
  {
  }

  /**
   * A run stopped for a reason that names no phase fails in the last phase it started, everything before
   * is completed; one stopped before its first phase shows no failed entry at all.
   */
  lemma TimelineOfStoppedRun(start: Time, events: seq<Event>, usesDocker: bool, n: nat, k: nat)
    requires var r := Exec(Initial(start), events).row;
             && r.queuedAt.Some?
             && NamesNoPhase(r.failureCategory)
             && IsPrefix(r.phaseTimestamps, n) && n <= |PHASES|
    requires k < ENTRIES
    ensures var e := BuildPhaseTimeline(Exec(Initial(start), events).row, usesDocker)[k];
            && (k < n ==> e.status == Completed && e.finishedAt.Some?)
            && (k == n ==> e.startedAt.Some? && e.status == if n == 0 then Completed else Failed)
            && (k > n ==>
                  && e.startedAt.None?
                  && e.status == if !usesDocker && PHASES[k - 1] in {PullingImages, StartingEnvironment}
                                 then Skipped else Pending)
  {
    OutcomeMatchesStatus(start, events);
    CategorizedIsTerminal(Exec(Initial(start), events).row);
    StoppedEntry(Exec(Initial(start), events).row, usesDocker, n, k);
  }

  lemma StoppedEntry(r: Row, usesDocker: bool, n: nat, k: nat)
    requires IsTerminal(r.status) && r.status != Passed && r.queuedAt.Some?
    requires NamesNoPhase(r.failureCategory)
    requires IsPrefix(r.phaseTimestamps, n) && n <= |PHASES| && k < ENTRIES
    ensures var e := EntryAt(r, usesDocker, k);
            && (k < n ==> e.status == Completed && e.finishedAt.Some?)
            && (k == n ==> e.startedAt.Some? && e.status == if n == 0 then Completed else Failed)
            && (k > n ==>
                  e.startedAt.None? && e.status == if !usesDocker && IsDockerEntry(k) then Skipped else Pending)
  {
    LastStartedOfPrefix(r, n, ENTRIES);
    if k > 0 { StartsOfPrefix(r, n, k); }
    NextStartOfPrefix(r, n, k + 1);
  }

  /** Before its first phase a run waits in the queue entry, and a run that was never queued has no entry started. */
  lemma TimelineOfWaitingRun(start: Time, events: seq<Event>, usesDocker: bool, k: nat)
    requires Exec(Initial(start), events).row.status in {Created, Queued, Claimed} && k < ENTRIES
    ensures var r := Exec(Initial(start), events).row;
            var e := BuildPhaseTimeline(r, usesDocker)[k];
            && e.finishedAt.None? && e.durationMs.None?
            && (k == 0 ==>
                  && e.startedAt == r.queuedAt && (r.queuedAt.Some? <==> r.status != Created)
                  && e.status == if r.status == Created then Pending else Active)
            && (k > 0 ==>
                  && e.startedAt.None?
                  && e.status == if !usesDocker && PHASES[k - 1] in {PullingImages, StartingEnvironment} then Skipped
                                 else Pending)
  {
    Reachable(start, events);
    var r := Exec(Initial(start), events).row;
    assert IsPrefix(r.phaseTimestamps, 0) && OutcomeInv(r);
    CreatedIsNotQueued(start, events);
    hide Inv;
    if k > 0 { StartsOfPrefix(r, 0, k); }
    NextStartOfPrefix(r, 0, k + 1);
  }

  lemma {:induction false} CreatedIsNotQueued(start: Time, events: seq<Event>)
    ensures var r := Exec(Initial(start), events).row; r.status == Created ==> r.queuedAt.None?
    decreases |events|
  {
    if events != [] {
      var n := |events| - 1;
      CreatedIsNotQueued(start, events[..n]);
      ExecLast(Initial(start), events);
      Reachable(start, events[..n]);
      var s := Exec(Initial(start), events[..n]);
      OtherStepsKeepCreated(s, events[n]);
    }
  }

  lemma {:induction false} ExecLast(s: System, events: seq<Event>)
    requires events != []
    ensures Exec(s, events) == Step(Exec(s, events[..|events| - 1]), events[|events| - 1])
    decreases |events|
  {
    if |events| > 1 {
      ExecLast(Step(s, events[0]), events[1..]);
      assert events[1..][..|events| - 2] == events[..|events| - 1][1..];
    }
  }

  lemma OtherStepsKeepCreated(s: System, e: Event)
    requires Inv(s) && (s.row.status == Created ==> s.row.queuedAt.None?)
    ensures Step(s, e).row.status == Created ==> Step(s, e).row.queuedAt.None?
  {
    StepKeeps(s, e);
    if e.Write? && WriteSucceeds(s, e.actor, e.now) { SuccessfulWriteSawTheRow(s, e.actor); }
  }

  /** The phase that a failure category names, if it names one. */
  function NamedPhase(category: Category): Option<Status> {
    match category
    case EnvironmentValidation => Some(ValidatingEnvironment)
    case ImagePull => Some(PullingImages)
    case ContainerStart => Some(StartingEnvironment)
    case Healthcheck => Some(WaitingForHealthcheck)
    case TestAssertion => Some(ExecutingTests)
    case Network | Timeout | Cancellation | Internal => None
  }

  /** A failure that names a phase is shown there and nowhere else, unless the entry is skipped and never started. */
  lemma TimelineOfNamedFailure(start: Time, events: seq<Event>, usesDocker: bool, k: nat)
    requires var r := Exec(Initial(start), events).row;
             r.failureCategory.Some? && NamedPhase(r.failureCategory.value).Some? && k < ENTRIES
    ensures var r := Exec(Initial(start), events).row;
            var e := BuildPhaseTimeline(r, usesDocker)[k];
            var named := k > 0 && NamedPhase(r.failureCategory.value) == Some(PHASES[k - 1]);
            var unused := !usesDocker && k > 0 && PHASES[k - 1] in {PullingImages, StartingEnvironment}
                          && PHASES[k - 1] !in r.phaseTimestamps;
            && (e.status == Failed <==> named && !unused)
            && (unused ==> e.status == Skipped) && e.status != Active
  {
    OutcomeMatchesStatus(start, events);
    CategorizedIsTerminal(Exec(Initial(start), events).row);
    if k > 0 { PhaseIndexInvertsPhases(PHASES[k - 1], k - 1); }
  }
}
