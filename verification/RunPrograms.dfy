/** Who calls the state service, and in which order: every interleaving of these programs is a disciplined run. */
module RunPrograms {
  import opened Wrappers
  import opened RunStatus
  import opened RunRow
  import opened RunProtocol
  import opened RunProtocolProofs
  import opened RunTheorems
  import opened RunDiscipline
  import opened Verdict
  import ExecutionPlans

  /**
   * What an actor does with a run. `Call` is an operation of the state service, which succeeds or throws; `Ask` reads
   * whether a cancellation was requested; `Poll` goes on, or is aborted by a timer that has seen the request; `Either`
   * leaves open which way other work takes, throwing included.
   */
  datatype Program =
    | Stop
    | Call(op: Op, done: Program, failed: Program)
    | Ask(yes: Program, no: Program)
    | Poll(aborted: Program, next: Program)
    | Either(one: Program, other: Program)

  // ---------- The programs of the runner ----------

  /** The `catch` block for a cancellation. */
  function Cancelling(): Program {
    var mark := Call(MarkCancelled, Stop, Stop);
    Call(RequestCancel, mark, mark)
  }

  const CATEGORIES := [TestAssertion, EnvironmentValidation, ImagePull, ContainerStart, Healthcheck, Network, Timeout,
                       Cancellation, Internal]

  function InfraFailures(categories: seq<Category>): Program {
    if categories == [] then Call(MarkTimedOut, Stop, Stop)
    else Either(Call(MarkInfraFailed(categories[0]), Stop, Stop), InfraFailures(categories[1..]))
  }

  /** The `catch` block for any other error: cancelled all the same if that was requested. */
  function Caught(): Program {
    Ask(Cancelling(), InfraFailures(CATEGORIES))
  }

  /** Work that may throw, for instance because the signal was aborted. */
  function Fallible(next: Program): Program {
    Poll(Cancelling(), Either(Caught(), next))
  }

  /** `ensureNotCancelled` and the work behind it. */
  function Guarded(next: Program): Program {
    Poll(Cancelling(), Either(Caught(), Ask(Cancelling(), Fallible(next))))
  }

  function Entering(phase: Status, next: Program): Program {
    Call(EnterPhase(phase), Fallible(next), Caught())
  }

  /** `executeSuites`, with as many checks for cancellation as it comes to make. */
  function Testing(checks: nat, stats: Option<Stats>, next: Program): Program {
    if checks > 0 then Guarded(Testing(checks - 1, stats, next))
    else if stats.Some? then next
    else Caught()
  }

  /** The end of a run that reached its cleanup; writing the report may still throw. */
  function Finishing(stats: Stats): Program {
    var report := Either(Stop, Caught());
    Ask(Call(MarkCancelled, report, Caught()), Call(FinalOp(stats), report, Caught()))
  }

  function Collecting(stats: Option<Stats>): Program {
    if stats.None? then Caught()
    else Entering(CollectingArtifacts, Entering(CleaningUp, Finishing(stats.value)))
  }

  /** Checking the health of the environment and running the tests. */
  function Waiting(checks: nat, stats: Option<Stats>): Program {
    Entering(WaitingForHealthcheck, Entering(ExecutingTests, Testing(checks, stats, Collecting(stats))))
  }

  function Starting(checks: nat, stats: Option<Stats>): Program {
    Entering(PullingImages, Entering(StartingEnvironment, Guarded(Waiting(checks, stats))))
  }

  function Driving(checks: nat, stats: Option<Stats>): Program {
    Guarded(Entering(PreparingWorkspace, Entering(ValidatingEnvironment, Guarded(Starting(checks, stats)))))
  }

  /** `executeInternal`; a run that is not queued, or whose lease another worker holds, is skipped. */
  function Executing(runner: RunnerId, leaseMs: int, checks: nat, stats: Option<Stats>): Program {
    var mark := Call(MarkCancelled, Either(Stop, Caught()), Caught());
    var claim := Call(Claim(runner, leaseMs), Driving(checks, stats), Either(Ask(Cancelling(), Stop), Caught()));
    Either(Caught(), Ask(Call(RequestCancel, mark, mark), Either(Stop, Either(Caught(), claim))))
  }

  // ---------- The other callers ----------

  /** The suites of a run, how their steps end, and what running them comes to. */
  datatype Tests = Tests(suites: seq<Suite>, steps: Steps, stats: Option<Stats>, results: seq<ResultRow>)

  /** A worker with its tests, the cancel endpoint, the sweep of one run, a run that cannot be queued, a failed job. */
  datatype Role =
    | Worker(runner: RunnerId, leaseMs: int, checks: nat, tests: Tests)
    | CancelEndpoint | Janitor | Creation | FailedJob

  function Perhaps(p: Program): Program {
    Either(Stop, p)
  }

  function ProgramOf(role: Role): Program {
    match role
    case Worker(runner, leaseMs, checks, tests) => Executing(runner, leaseMs, checks, tests.stats)
    case CancelEndpoint => Perhaps(Call(RequestCancel, Perhaps(Call(MarkCancelled, Stop, Stop)), Stop))
    case Janitor =>
      Perhaps(Ask(Perhaps(Call(MarkCancelled, Stop, Stop)), Perhaps(Call(MarkInfraFailed(Internal), Stop, Stop))))
    case Creation | FailedJob => Perhaps(Call(MarkInfraFailed(Internal), Stop, Stop))
  }

  /** The statistics and results are those `executeSuites` comes to. */
  ghost predicate IsRunner(h: ExecutionPlans.Host, role: Role) {
    role.Worker? ==> IsOutcome(h, role.tests.suites, role.tests.steps, role.tests.stats, role.tests.results)
  }

  // ---------- Interleavings ----------

  /** A program about to go on, or waiting for its operation, with what follows if that succeeds or throws. */
  datatype Thread = Ready(program: Program) | Calling(done: Program, failed: Program)

  datatype World = World(system: System, threads: map<nat, Thread>, author: Option<nat>)

  /** A step of the system, a question about cancellation, or one way of several. */
  datatype Move = Happen(e: Event) | AskNow(actor: nat) | Pick(actor: nat, first: bool)

  /**
   * The events that the programs allow. Ticks, enqueueing, renewals, the polls of timers in the background and
   * crashes can happen at any time.
   */
  predicate IsAllowed(w: World, e: Event) {
    match e
    case Begin(a, op) =>
      && a in w.threads && w.threads[a].Ready? && w.threads[a].program.Call? && w.threads[a].program.op == op
      && ActorOf(w.system, a).job.Idle?
    case Read(a) => a in w.threads && w.threads[a].Calling? && ActorOf(w.system, a).job.Begun?
    case Write(a, now) =>
      && a in w.threads && w.threads[a].Calling? && ActorOf(w.system, a).job.HasRead?
      && ActorOf(w.system, a).job.readAt <= now <= w.system.clock
    case Observe(a) => a in w.threads
    case Crash(a) => a in w.threads
    case _ => true
  }

  function ThreadsAfter(w: World, e: Event): map<nat, Thread>
    requires IsAllowed(w, e)
  {
    match e
    case Begin(a, _) => w.threads[a := Calling(w.threads[a].program.done, w.threads[a].program.failed)]
    case Read(a) =>
      if Permitted(ActorOf(w.system, a).job.op, w.system.row.status) then w.threads
      else w.threads[a := Ready(w.threads[a].failed)]
    case Write(a, _) =>
      var job := ActorOf(w.system, a).job;
      var succeeds := Matches(w.system.row, job.op, job.seen, job.begun);
      w.threads[a := Ready(if succeeds then w.threads[a].done else w.threads[a].failed)]
    case Crash(a) => w.threads[a := Ready(Stop)]
    case _ => w.threads
  }

  predicate IsAsking(w: World, a: nat) {
    a in w.threads && w.threads[a].Ready? && w.threads[a].program.Ask?
  }

  function Picked(w: World, a: nat, first: bool): World {
    if a !in w.threads || !w.threads[a].Ready? then w
    else
      match w.threads[a].program
      case Either(one, other) => w.(threads := w.threads[a := Ready(if first then one else other)])
      case Poll(aborted, next) =>
        if first && !ActorOf(w.system, a).sawCancel then w
        else w.(threads := w.threads[a := Ready(if first then aborted else next)])
      case _ => w
  }

  function After(w: World, e: Event): World
    requires IsAllowed(w, e)
  {
    var wrote := e.Write? && WriteSucceeds(w.system, e.actor, e.now);
    World(Step(w.system, e), ThreadsAfter(w, e), if wrote then Some(e.actor) else w.author)
  }

  function Advance(w: World, m: Move): World {
    match m
    case Happen(e) => if IsAllowed(w, e) then After(w, e) else w
    case AskNow(a) =>
      if !IsAsking(w, a) then w
      else
        var p := w.threads[a].program;
        w.(system := Step(w.system, Observe(a)),
           threads := w.threads[a := Ready(if CancellationSeen(w.system.row) then p.yes else p.no)])
    case Pick(a, first) => Picked(w, a, first)
  }

  /** What a move does to the system. */
  function Emitted(w: World, m: Move): seq<Event> {
    match m
    case Happen(e) => if IsAllowed(w, e) then [e] else []
    case AskNow(a) => if IsAsking(w, a) then [Observe(a)] else []
    case Pick(_, _) => []
  }

  function RunAll(w: World, moves: seq<Move>): World
    decreases |moves|
  {
    if moves == [] then w else RunAll(Advance(w, moves[0]), moves[1..])
  }

  function EmittedAll(w: World, moves: seq<Move>): seq<Event>
    decreases |moves|
  {
    if moves == [] then [] else Emitted(w, moves[0]) + EmittedAll(Advance(w, moves[0]), moves[1..])
  }

  function Cast(start: Time, roles: map<nat, Role>): World {
    World(Initial(start), map a | a in roles :: Ready(ProgramOf(roles[a])), None)
  }

  // ---------- Safe programs ----------

  /** A verdict comes with statistics from `verdicts`. */
  predicate IsOffered(op: Op, verdicts: set<Stats>) {
    (op.MarkPassed? || op.MarkTestFailed?) ==> op.stats in verdicts
  }

  /** What an actor that saw the cancellation or not, and entered a phase last, may call. */
  predicate MayCall(op: Op, saw: bool, entered: Option<Status>, verdicts: set<Stats>) {
    && (op.MarkCancelled? ==> saw)
    && (op.MarkPassed? ==> entered == Some(CleaningUp) && op.stats.failed == 0)
    && (op.MarkTestFailed? ==> entered == Some(CleaningUp) && op.stats.failed > 0)
    && IsOffered(op, verdicts)
  }

  function EnteredBy(op: Op, entered: Option<Status>): Option<Status> {
    if op.EnterPhase? then Some(op.phase) else entered
  }

  predicate IsSafe(p: Program, saw: bool, entered: Option<Status>, verdicts: set<Stats>) {
    match p
    case Stop => true
    case Call(op, done, failed) =>
      && MayCall(op, saw, entered, verdicts)
      && IsSafe(failed, saw, entered, verdicts)
      && IsSafe(done, saw || op.RequestCancel?, EnteredBy(op, entered), verdicts)
    case Ask(yes, no) => IsSafe(yes, true, entered, verdicts) && IsSafe(no, saw, entered, verdicts)
    case Poll(aborted, next) => IsSafe(aborted, true, entered, verdicts) && IsSafe(next, saw, entered, verdicts)
    case Either(one, other) => IsSafe(one, saw, entered, verdicts) && IsSafe(other, saw, entered, verdicts)
  }

  lemma {:induction false} SeeingMoreIsSafe(p: Program, saw: bool, entered: Option<Status>, verdicts: set<Stats>)
    requires IsSafe(p, saw, entered, verdicts)
    ensures IsSafe(p, true, entered, verdicts)
    decreases p
  {
    match p
    case Stop =>
    case Call(op, done, failed) =>
      SeeingMoreIsSafe(failed, saw, entered, verdicts);
      SeeingMoreIsSafe(done, saw || op.RequestCancel?, EnteredBy(op, entered), verdicts);
    case Ask(yes, no) => SeeingMoreIsSafe(no, saw, entered, verdicts);
    case Poll(aborted, next) => SeeingMoreIsSafe(next, saw, entered, verdicts);
    case Either(one, other) =>
      SeeingMoreIsSafe(one, saw, entered, verdicts);
      SeeingMoreIsSafe(other, saw, entered, verdicts);
  }

  lemma LastCallIsSafe(op: Op, saw: bool, entered: Option<Status>, verdicts: set<Stats>)
    requires MayCall(op, saw, entered, verdicts)
    ensures IsSafe(Call(op, Stop, Stop), saw, entered, verdicts)
  {
    assert IsSafe(Stop, saw, entered, verdicts);
    assert IsSafe(Stop, saw || op.RequestCancel?, EnteredBy(op, entered), verdicts);
  }

  lemma {:induction false} InfraFailuresAreSafe(categories: seq<Category>, saw: bool, entered: Option<Status>,
                                                verdicts: set<Stats>)
    ensures IsSafe(InfraFailures(categories), saw, entered, verdicts)
    decreases |categories|
  {
    if categories == [] {
      LastCallIsSafe(MarkTimedOut, saw, entered, verdicts);
    } else {
      LastCallIsSafe(MarkInfraFailed(categories[0]), saw, entered, verdicts);
      InfraFailuresAreSafe(categories[1..], saw, entered, verdicts);
    }
  }

  lemma CancellingIsSafe(saw: bool, entered: Option<Status>, verdicts: set<Stats>)
    requires saw
    ensures IsSafe(Cancelling(), saw, entered, verdicts)
  {
    LastCallIsSafe(MarkCancelled, true, entered, verdicts);
  }

  lemma CaughtIsSafe(saw: bool, entered: Option<Status>, verdicts: set<Stats>)
    ensures IsSafe(Caught(), saw, entered, verdicts)
  {
    CancellingIsSafe(true, entered, verdicts);
    InfraFailuresAreSafe(CATEGORIES, saw, entered, verdicts);
  }

  lemma FallibleIsSafe(next: Program, saw: bool, entered: Option<Status>, verdicts: set<Stats>)
    requires IsSafe(next, saw, entered, verdicts)
    ensures IsSafe(Fallible(next), saw, entered, verdicts)
  {
    CancellingIsSafe(true, entered, verdicts);
    CaughtIsSafe(saw, entered, verdicts);
    assert IsSafe(Either(Caught(), next), saw, entered, verdicts);
  }

  lemma GuardedIsSafe(next: Program, saw: bool, entered: Option<Status>, verdicts: set<Stats>)
    requires IsSafe(next, saw, entered, verdicts)
    ensures IsSafe(Guarded(next), saw, entered, verdicts)
  {
    CancellingIsSafe(true, entered, verdicts);
    CaughtIsSafe(saw, entered, verdicts);
    FallibleIsSafe(next, saw, entered, verdicts);
    var ask := Ask(Cancelling(), Fallible(next));
    assert IsSafe(ask, saw, entered, verdicts);
    assert IsSafe(Either(Caught(), ask), saw, entered, verdicts);
  }

  lemma EnteringIsSafe(phase: Status, next: Program, saw: bool, entered: Option<Status>, verdicts: set<Stats>)
    requires IsSafe(next, saw, Some(phase), verdicts)
    ensures IsSafe(Entering(phase, next), saw, entered, verdicts)
  {
    FallibleIsSafe(next, saw, Some(phase), verdicts);
    CaughtIsSafe(saw, entered, verdicts);
  }

  lemma {:induction false} TestingIsSafe(checks: nat, stats: Option<Stats>, next: Program, saw: bool,
                                         entered: Option<Status>, verdicts: set<Stats>)
    requires IsSafe(next, saw, entered, verdicts)
    ensures IsSafe(Testing(checks, stats, next), saw, entered, verdicts)
    decreases checks
  {
    CaughtIsSafe(saw, entered, verdicts);
    if checks > 0 {
      TestingIsSafe(checks - 1, stats, next, saw, entered, verdicts);
      GuardedIsSafe(Testing(checks - 1, stats, next), saw, entered, verdicts);
    }
  }

  lemma ReportIsSafe(saw: bool, entered: Option<Status>, verdicts: set<Stats>)
    ensures IsSafe(Either(Stop, Caught()), saw, entered, verdicts)
  {
    CaughtIsSafe(saw, entered, verdicts);
  }

  /** The verdict is called after the cleanup phase was entered, and is the one the statistics call for. */
  lemma FinishingIsSafe(stats: Stats, saw: bool, verdicts: set<Stats>)
    requires stats in verdicts
    ensures IsSafe(Finishing(stats), saw, Some(CleaningUp), verdicts)
  {
    var entered := Some(CleaningUp);
    ReportIsSafe(saw, entered, verdicts);
    ReportIsSafe(true, entered, verdicts);
    CaughtIsSafe(saw, entered, verdicts);
    CaughtIsSafe(true, entered, verdicts);
    var report := Either(Stop, Caught());
    assert IsSafe(Call(MarkCancelled, report, Caught()), true, entered, verdicts);
    assert IsSafe(Call(FinalOp(stats), report, Caught()), saw, entered, verdicts);
  }

  lemma CollectingIsSafe(stats: Option<Stats>, saw: bool, entered: Option<Status>, verdicts: set<Stats>)
    requires stats.Some? ==> stats.value in verdicts
    ensures IsSafe(Collecting(stats), saw, entered, verdicts)
  {
    CaughtIsSafe(saw, entered, verdicts);
    if stats.Some? {
      FinishingIsSafe(stats.value, saw, verdicts);
      EnteringIsSafe(CleaningUp, Finishing(stats.value), saw, Some(CollectingArtifacts), verdicts);
      EnteringIsSafe(CollectingArtifacts, Entering(CleaningUp, Finishing(stats.value)), saw, entered, verdicts);
    }
  }

  lemma DrivingIsSafe(checks: nat, stats: Option<Stats>, saw: bool, entered: Option<Status>, verdicts: set<Stats>)
    requires stats.Some? ==> stats.value in verdicts
    ensures IsSafe(Driving(checks, stats), saw, entered, verdicts)
  {
    CollectingIsSafe(stats, saw, Some(ExecutingTests), verdicts);
    var testing := Testing(checks, stats, Collecting(stats));
    TestingIsSafe(checks, stats, Collecting(stats), saw, Some(ExecutingTests), verdicts);
    var executing := Entering(ExecutingTests, testing);
    EnteringIsSafe(ExecutingTests, testing, saw, Some(WaitingForHealthcheck), verdicts);
    var waiting := Entering(WaitingForHealthcheck, executing);
    EnteringIsSafe(WaitingForHealthcheck, executing, saw, Some(StartingEnvironment), verdicts);
    GuardedIsSafe(waiting, saw, Some(StartingEnvironment), verdicts);
    var starting := Entering(StartingEnvironment, Guarded(waiting));
    EnteringIsSafe(StartingEnvironment, Guarded(waiting), saw, Some(PullingImages), verdicts);
    var pulling := Entering(PullingImages, starting);
    EnteringIsSafe(PullingImages, starting, saw, Some(ValidatingEnvironment), verdicts);
    GuardedIsSafe(pulling, saw, Some(ValidatingEnvironment), verdicts);
    var validating := Entering(ValidatingEnvironment, Guarded(pulling));
    EnteringIsSafe(ValidatingEnvironment, Guarded(pulling), saw, Some(PreparingWorkspace), verdicts);
    EnteringIsSafe(PreparingWorkspace, validating, saw, entered, verdicts);
    GuardedIsSafe(Entering(PreparingWorkspace, validating), saw, entered, verdicts);
  }

  lemma ExecutingIsSafe(runner: RunnerId, leaseMs: int, checks: nat, stats: Option<Stats>, verdicts: set<Stats>)
    requires stats.Some? ==> stats.value in verdicts
    ensures IsSafe(Executing(runner, leaseMs, checks, stats), false, None, verdicts)
  {
    CaughtIsSafe(false, None, verdicts);
    CaughtIsSafe(true, None, verdicts);
    CancellingIsSafe(true, None, verdicts);
    ReportIsSafe(true, None, verdicts);
    DrivingIsSafe(checks, stats, false, None, verdicts);
    var mark := Call(MarkCancelled, Either(Stop, Caught()), Caught());
    assert IsSafe(mark, true, None, verdicts);
    assert IsSafe(Call(RequestCancel, mark, mark), true, None, verdicts);
    var refused := Either(Ask(Cancelling(), Stop), Caught());
    assert IsSafe(Ask(Cancelling(), Stop), false, None, verdicts);
    assert IsSafe(refused, false, None, verdicts);
    var claim := Call(Claim(runner, leaseMs), Driving(checks, stats), refused);
    assert IsSafe(claim, false, None, verdicts);
    assert IsSafe(Either(Stop, Either(Caught(), claim)), false, None, verdicts);
  }

  // ---------- Every interleaving ----------

  /** The statistics that an actor can write: those of its tests. */
  function Verdicts(role: Role): set<Stats> {
    if role.Worker? && role.tests.stats.Some? then {role.tests.stats.value} else {}
  }

  lemma RoleIsSafe(role: Role)
    ensures IsSafe(ProgramOf(role), false, None, Verdicts(role))
  {
    var verdicts := Verdicts(role);
    match role
    case Worker(runner, leaseMs, checks, tests) => ExecutingIsSafe(runner, leaseMs, checks, tests.stats, verdicts);
    case CancelEndpoint =>
      LastCallIsSafe(MarkCancelled, true, None, verdicts);
      assert IsSafe(Perhaps(Call(MarkCancelled, Stop, Stop)), true, None, verdicts);
    case Janitor =>
      LastCallIsSafe(MarkCancelled, true, None, verdicts);
      assert IsSafe(Perhaps(Call(MarkCancelled, Stop, Stop)), true, None, verdicts);
      LastCallIsSafe(MarkInfraFailed(Internal), false, None, verdicts);
      assert IsSafe(Perhaps(Call(MarkInfraFailed(Internal), Stop, Stop)), false, None, verdicts);
    case _ => LastCallIsSafe(MarkInfraFailed(Internal), false, None, verdicts);
  }

  predicate ThreadInv(t: Thread, actor: Actor, verdicts: set<Stats>) {
    match t
    case Ready(p) => actor.job.Idle? && IsSafe(p, actor.sawCancel, actor.entered, verdicts)
    case Calling(done, failed) =>
      && !actor.job.Idle? && IsOffered(actor.job.op, verdicts)
      && IsSafe(failed, actor.sawCancel, actor.entered, verdicts)
      && IsSafe(done, actor.sawCancel || actor.job.op.RequestCancel?, EnteredBy(actor.job.op, actor.entered), verdicts)
  }

  ghost predicate WorldInv(w: World, roles: map<nat, Role>) {
    && w.system.actors.Keys <= w.threads.Keys == roles.Keys
    && forall a :: a in w.threads ==> ThreadInv(w.threads[a], ActorOf(w.system, a), Verdicts(roles[a]))
  }

  predicate ActsFor(e: Event, a: nat) {
    (e.Begin? || e.Read? || e.Write? || e.Observe? || e.Crash?) && e.actor == a
  }

  lemma OthersAreUntouched(w: World, e: Event, b: nat)
    requires IsAllowed(w, e) && !ActsFor(e, b) && b in w.threads
    ensures ActorOf(Step(w.system, e), b) == ActorOf(w.system, b)
    ensures ThreadsAfter(w, e).Keys == w.threads.Keys && ThreadsAfter(w, e)[b] == w.threads[b]
  {
  }

  lemma ObservingIsSafe(t: Thread, actor: Actor, verdicts: set<Stats>)
    requires ThreadInv(t, actor, verdicts)
    ensures ThreadInv(t, actor.(sawCancel := true), verdicts)
  {
    match t
    case Ready(p) => SeeingMoreIsSafe(p, actor.sawCancel, actor.entered, verdicts);
    case Calling(done, failed) =>
      SeeingMoreIsSafe(failed, actor.sawCancel, actor.entered, verdicts);
      var op := actor.job.op;
      SeeingMoreIsSafe(done, actor.sawCancel || op.RequestCancel?, EnteredBy(op, actor.entered), verdicts);
  }

  lemma OwnThreadIsKept(w: World, e: Event, a: nat, verdicts: set<Stats>)
    requires IsAllowed(w, e) && ActsFor(e, a) && ThreadInv(w.threads[a], ActorOf(w.system, a), verdicts)
    ensures ThreadInv(ThreadsAfter(w, e)[a], ActorOf(Step(w.system, e), a), verdicts)
    ensures Disciplined(w.system, e) && (e.Begin? ==> IsOffered(e.op, verdicts))
  {
    if e.Observe? {
      ObservingIsSafe(w.threads[a], ActorOf(w.system, a), verdicts);
    }
  }

  lemma HappenKeeps(w: World, e: Event, roles: map<nat, Role>)
    requires WorldInv(w, roles) && IsAllowed(w, e)
    ensures WorldInv(After(w, e), roles)
    ensures Disciplined(w.system, e)
  {
    var t, threads := Step(w.system, e), ThreadsAfter(w, e);
    forall b | b in w.threads ensures b in threads && ThreadInv(threads[b], ActorOf(t, b), Verdicts(roles[b])) {
      if ActsFor(e, b) { OwnThreadIsKept(w, e, b, Verdicts(roles[b])); } else { OthersAreUntouched(w, e, b); }
    }
  }

  lemma AdvanceKeeps(w: World, m: Move, roles: map<nat, Role>)
    requires WorldInv(w, roles)
    ensures WorldInv(Advance(w, m), roles)
    ensures Advance(w, m).system == Exec(w.system, Emitted(w, m)) && DisciplinedRun(w.system, Emitted(w, m))
  {
    match m
    case Happen(e) => if IsAllowed(w, e) { HappenKeeps(w, e, roles); }
    case AskNow(a) => if IsAsking(w, a) { HappenKeeps(w, Observe(a), roles); }
    case Pick(a, first) =>
  }

  predicate HasVerdict(r: Row) {
    r.status == Passed || r.status == TestFailed
  }

  /** The row's verdict, if it has one, was written by an actor with the statistics of its tests. */
  predicate VerdictIsOwn(w: World, roles: map<nat, Role>) {
    HasVerdict(w.system.row) ==>
      w.author.Some? && w.author.value in roles && w.system.row.stats in Verdicts(roles[w.author.value])
  }

  lemma WrittenVerdict(r: Row, op: Op, seen: Snapshot, begun: Time, now: Time)
    requires Permitted(op, r.status)
    ensures HasVerdict(Written(r, op, seen, begun, now)) ==>
              (op.MarkPassed? || op.MarkTestFailed?) && Written(r, op, seen, begun, now).stats == op.stats
  {
  }

  lemma WriteGivesVerdict(s: System, a: nat, now: Time)
    requires Inv(s) && WriteSucceeds(s, a, now) && HasVerdict(Step(s, Write(a, now)).row)
    ensures var op := ActorOf(s, a).job.op;
            (op.MarkPassed? || op.MarkTestFailed?) && Step(s, Write(a, now)).row.stats == op.stats
  {
    var job := ActorOf(s, a).job;
    SuccessfulWriteSawTheRow(s, a);
    WrittenVerdict(s.row, job.op, job.seen, job.begun, now);
    hide Inv, Permitted, Written, Matches;
    assert Step(s, Write(a, now)).row == Written(s.row, job.op, job.seen, job.begun, now);
  }

  lemma OthersKeepVerdict(s: System, e: Event)
    requires !(e.Write? && WriteSucceeds(s, e.actor, e.now)) && HasVerdict(Step(s, e).row)
    ensures HasVerdict(s.row) && Step(s, e).row.stats == s.row.stats
  {
  }

  lemma HappenKeepsRow(w: World, e: Event, roles: map<nat, Role>)
    requires Inv(w.system) && WorldInv(w, roles) && VerdictIsOwn(w, roles) && IsAllowed(w, e)
    ensures VerdictIsOwn(After(w, e), roles)
  {
    hide Inv, Step, IsSafe, Verdicts;
    if HasVerdict(After(w, e).system.row) {
      if e.Write? && WriteSucceeds(w.system, e.actor, e.now) {
        hide WriteSucceeds;
        WriteGivesVerdict(w.system, e.actor, e.now);
        assert ThreadInv(w.threads[e.actor], ActorOf(w.system, e.actor), Verdicts(roles[e.actor]));
      } else {
        OthersKeepVerdict(w.system, e);
      }
    }
  }

  lemma AdvanceKeepsRow(w: World, m: Move, roles: map<nat, Role>)
    requires Inv(w.system) && WorldInv(w, roles) && VerdictIsOwn(w, roles)
    ensures Inv(Advance(w, m).system) && VerdictIsOwn(Advance(w, m), roles)
  {
    match m
    case Happen(e) =>
      if IsAllowed(w, e) {
        StepKeepsInv(w.system, e);
        HappenKeepsRow(w, e, roles);
      }
    case AskNow(a) =>
      if IsAsking(w, a) {
        StepKeepsInv(w.system, Observe(a));
        HappenKeepsRow(w, Observe(a), roles);
      }
    case Pick(a, first) =>
  }

  lemma OneMoreEvent(s: System, first: seq<Event>, rest: seq<Event>)
    requires |first| <= 1
    ensures Exec(s, first + rest) == Exec(Exec(s, first), rest)
    ensures DisciplinedRun(s, first) && DisciplinedRun(Exec(s, first), rest) ==> DisciplinedRun(s, first + rest)
  {
    if first == [] {
      assert first + rest == rest;
    } else {
      assert (first + rest)[0] == first[0] && (first + rest)[1..] == rest && first[1..] == [];
    }
  }

  lemma {:induction false} RunKeeps(w: World, moves: seq<Move>, roles: map<nat, Role>)
    requires Inv(w.system) && WorldInv(w, roles) && VerdictIsOwn(w, roles)
    ensures RunAll(w, moves).system == Exec(w.system, EmittedAll(w, moves))
    ensures DisciplinedRun(w.system, EmittedAll(w, moves))
    ensures VerdictIsOwn(RunAll(w, moves), roles)
    decreases |moves|
  {
    if moves != [] {
      var v := Advance(w, moves[0]);
      AdvanceKeeps(w, moves[0], roles);
      AdvanceKeepsRow(w, moves[0], roles);
      RunKeeps(v, moves[1..], roles);
      OneMoreEvent(w.system, Emitted(w, moves[0]), EmittedAll(v, moves[1..]));
    }
  }

  lemma CastIsSafe(start: Time, roles: map<nat, Role>)
    ensures Inv(Initial(start)) && VerdictIsOwn(Cast(start, roles), roles)
    ensures WorldInv(Cast(start, roles), roles)
  {
    InitialInv(start);
    forall a | a in roles ensures ThreadInv(Cast(start, roles).threads[a], FRESH_ACTOR, Verdicts(roles[a])) {
      RoleIsSafe(roles[a]);
    }
  }

  /**
   * However the workers, cancel requests, sweeps and other callers of one run interleave, what reaches the row is a
   * disciplined run of the protocol, so everything proved of disciplined runs holds of it.
   */
  lemma InterleavingsAreDisciplined(start: Time, roles: map<nat, Role>, moves: seq<Move>)
    ensures var events := EmittedAll(Cast(start, roles), moves);
            && DisciplinedRun(Initial(start), events)
            && RunAll(Cast(start, roles), moves).system == Exec(Initial(start), events)
  {
    CastIsSafe(start, roles);
    RunKeeps(Cast(start, roles), moves, roles);
  }

  /**
   * The verdict that these tests call for: every step that is not a sequence was run and counted, and PASSED means
   * that all of them passed.
   */
  ghost predicate IsVerdictOf(r: Row, h: ExecutionPlans.Host, t: Tests, places: seq<(nat, nat)>) {
    && AllResolve(h, t.suites) && AreTestPlaces(h, t.suites, places)
    && AreResultsAt(h, t.suites, places, t.steps, t.results)
    && r.stats.total == |places|
    && (r.status == Passed <==> forall k :: 0 <= k < |t.results| ==> t.results[k].passed)
    && (r.status == TestFailed <==> exists k :: 0 <= k < |t.results| && !t.results[k].passed)
  }

  lemma PlacesOfOutcome(h: ExecutionPlans.Host, t: Tests) returns (places: seq<(nat, nat)>)
    requires IsOutcome(h, t.suites, t.steps, t.stats, t.results) && t.stats.Some?
    ensures AllResolve(h, t.suites) && AreTestPlaces(h, t.suites, places)
    ensures AreResultsAt(h, t.suites, places, t.steps, t.results) && IsCountOf(t.stats.value, t.results)
  {
    hide AreTestPlaces, AreResultsAt, IsCountOf, Schedule;
    places :| AreTestPlaces(h, t.suites, places) && AreResultsAt(h, t.suites, places, t.steps, t.results);
  }

  lemma SameNumber(h: ExecutionPlans.Host, t: Tests, places: seq<(nat, nat)>)
    requires AllResolve(h, t.suites) && AreTestPlaces(h, t.suites, places)
    requires AreResultsAt(h, t.suites, places, t.steps, t.results)
    ensures |places| == |t.results|
  {
  }

  lemma VerdictOfTests(r: Row, h: ExecutionPlans.Host, t: Tests) returns (places: seq<(nat, nat)>)
    requires IsOutcome(h, t.suites, t.steps, t.stats, t.results) && t.stats == Some(r.stats) && HasVerdict(r)
    requires r.status == Passed <==> r.stats.failed == 0
    ensures IsVerdictOf(r, h, t, places)
  {
    PassedIsWithin(t.results);
    places := PlacesOfOutcome(h, t);
    SameNumber(h, t, places);
    hide IsOutcome, AreTestPlaces, AreResultsAt;
  }

  lemma VerdictOfAuthor(h: ExecutionPlans.Host, w: World, roles: map<nat, Role>)
    requires forall a :: a in roles ==> IsRunner(h, roles[a])
    requires VerdictIsOwn(w, roles) && HasVerdict(w.system.row)
    requires w.system.row.status == Passed <==> w.system.row.stats.failed == 0
    ensures w.author.Some? && w.author.value in roles && roles[w.author.value].Worker?
    ensures exists places :: IsVerdictOf(w.system.row, h, roles[w.author.value].tests, places)
  {
    hide IsOutcome, IsVerdictOf;
    var a := w.author.value;
    assert IsRunner(h, roles[a]);
    var places := VerdictOfTests(w.system.row, h, roles[a].tests);
  }

  /**
   * The verdict of a run was written by a worker, the last actor to write the row, and comes from its own tests: it
   * ran every step of every plan that is not a sequence to its end, and the run is PASSED exactly if all of them passed.
   */
  lemma VerdictComesFromTests(h: ExecutionPlans.Host, start: Time, roles: map<nat, Role>, moves: seq<Move>)
    requires forall a :: a in roles ==> IsRunner(h, roles[a])
    ensures var w := RunAll(Cast(start, roles), moves);
            HasVerdict(w.system.row) ==>
              && w.author.Some? && w.author.value in roles && roles[w.author.value].Worker?
              && exists places :: IsVerdictOf(w.system.row, h, roles[w.author.value].tests, places)
  {
    hide Cast, ProgramOf, IsRunner, IsVerdictOf, Inv, WorldInv, RunAll, EmittedAll, DisciplinedRun, Exec, VerdictIsOwn;
    var w := Cast(start, roles);
    CastIsSafe(start, roles);
    CastStart(start, roles);
    RunKeeps(w, moves, roles);
    VerdictMatchesStats(start, EmittedAll(w, moves));
    if HasVerdict(RunAll(w, moves).system.row) {
      VerdictOfAuthor(h, RunAll(w, moves), roles);
    }
  }

  lemma CastStart(start: Time, roles: map<nat, Role>)
    ensures Cast(start, roles).system == Initial(start)
  {
  }

  // ---------- A worker left alone ----------

  /** Actor `a` is about to go on with `p`; nobody asked for a cancellation. */
  predicate IsAt(w: World, a: nat, status: Status, p: Program) {
    && a in w.threads && w.threads[a] == Ready(p) && ActorOf(w.system, a).job.Idle?
    && w.system.row.status == status && !CancellationSeen(w.system.row)
  }

  ghost predicate Reaches(w: World, v: World) {
    exists moves :: RunAll(w, moves) == v
  }

  lemma {:induction false} RunAppends(w: World, first: seq<Move>, rest: seq<Move>)
    ensures RunAll(w, first + rest) == RunAll(RunAll(w, first), rest)
    decreases |first|
  {
    if first == [] {
      assert first + rest == rest;
    } else {
      assert (first + rest)[0] == first[0] && (first + rest)[1..] == first[1..] + rest;
      RunAppends(Advance(w, first[0]), first[1..], rest);
    }
  }

  lemma ReachesItself(u: World)
    ensures Reaches(u, u)
  {
    assert RunAll(u, []) == u;
  }

  lemma OneMoreMove(u: World, w: World, m: Move)
    requires Reaches(u, w)
    ensures Reaches(u, Advance(w, m))
  {
    var moves :| RunAll(u, moves) == w;
    RunAppends(u, moves, [m]);
    assert RunAll(w, [m]) == RunAll(Advance(w, m), []);
  }

  /** The world after actor `a` has begun an operation, read the row and written it. */
  function Called(w: World, a: nat, op: Op): World {
    var read := Advance(Advance(w, Happen(Begin(a, op))), Happen(Read(a)));
    Advance(read, Happen(Write(a, read.system.clock)))
  }

  lemma CalledIsAt(w: World, a: nat, status: Status, op: Op, done: Program, failed: Program)
    requires IsAt(w, a, status, Call(op, done, failed)) && Permitted(op, status)
    requires !op.RequestCancel? && !op.MarkCancelled? && (op.Claim? ==> w.system.row.leaseExpiresAt.None?)
    ensures var v := Called(w, a, op);
            && IsAt(v, a, Target(op), done) && v.system.row.status == Target(op)
            && ((op.MarkPassed? || op.MarkTestFailed?) ==> v.system.row.stats == op.stats)
  {
    var begun := Advance(w, Happen(Begin(a, op)));
    assert begun.threads[a] == Calling(done, failed) && begun.system.row == w.system.row;
    var read := Advance(begun, Happen(Read(a)));
    assert read.threads[a] == Calling(done, failed) && read.system.row == w.system.row;
  }

  lemma CallReaches(u: World, w: World, a: nat, status: Status, op: Op, done: Program, failed: Program)
    returns (v: World)
    requires Reaches(u, w) && IsAt(w, a, status, Call(op, done, failed)) && Permitted(op, status)
    requires !op.RequestCancel? && !op.MarkCancelled? && (op.Claim? ==> w.system.row.leaseExpiresAt.None?)
    ensures Reaches(u, v) && IsAt(v, a, Target(op), done) && v.system.row.status == Target(op)
    ensures (op.MarkPassed? || op.MarkTestFailed?) ==> v.system.row.stats == op.stats
  {
    hide Reaches, IsAt, Advance, Permitted;
    CalledIsAt(w, a, status, op, done, failed);
    OneMoreMove(u, w, Happen(Begin(a, op)));
    var begun := Advance(w, Happen(Begin(a, op)));
    OneMoreMove(u, begun, Happen(Read(a)));
    var read := Advance(begun, Happen(Read(a)));
    OneMoreMove(u, read, Happen(Write(a, read.system.clock)));
    v := Called(w, a, op);
  }

  lemma EitherReaches(u: World, w: World, a: nat, status: Status, one: Program, next: Program) returns (v: World)
    requires Reaches(u, w) && IsAt(w, a, status, Either(one, next))
    ensures Reaches(u, v) && IsAt(v, a, status, next) && v.system == w.system
  {
    OneMoreMove(u, w, Pick(a, false));
    v := Advance(w, Pick(a, false));
  }

  lemma AskReaches(u: World, w: World, a: nat, status: Status, yes: Program, next: Program) returns (v: World)
    requires Reaches(u, w) && IsAt(w, a, status, Ask(yes, next))
    ensures Reaches(u, v) && IsAt(v, a, status, next) && v.system.row == w.system.row
  {
    OneMoreMove(u, w, AskNow(a));
    v := Advance(w, AskNow(a));
  }

  lemma FallibleReaches(u: World, w: World, a: nat, status: Status, next: Program) returns (v: World)
    requires Reaches(u, w) && IsAt(w, a, status, Fallible(next))
    ensures Reaches(u, v) && IsAt(v, a, status, next)
  {
    OneMoreMove(u, w, Pick(a, false));
    v := EitherReaches(u, Advance(w, Pick(a, false)), a, status, Caught(), next);
  }

  lemma GuardedReaches(u: World, w: World, a: nat, status: Status, next: Program) returns (v: World)
    requires Reaches(u, w) && IsAt(w, a, status, Guarded(next))
    ensures Reaches(u, v) && IsAt(v, a, status, next)
  {
    v := FallibleReaches(u, w, a, status, Ask(Cancelling(), Fallible(next)));
    v := AskReaches(u, v, a, status, Cancelling(), Fallible(next));
    v := FallibleReaches(u, v, a, status, next);
  }

  lemma EnteringReaches(u: World, w: World, a: nat, status: Status, phase: Status, next: Program) returns (v: World)
    requires Reaches(u, w) && IsAt(w, a, status, Entering(phase, next))
    requires IsPhase(phase) && CanTransition(status, phase)
    ensures Reaches(u, v) && IsAt(v, a, phase, next)
  {
    v := CallReaches(u, w, a, status, EnterPhase(phase), Fallible(next), Caught());
    v := FallibleReaches(u, v, a, phase, next);
  }

  lemma {:induction false} TestingReaches(u: World, w: World, a: nat, checks: nat, stats: Stats, next: Program)
    returns (v: World)
    requires Reaches(u, w) && IsAt(w, a, ExecutingTests, Testing(checks, Some(stats), next))
    ensures Reaches(u, v) && IsAt(v, a, ExecutingTests, next)
    decreases checks
  {
    v := w;
    if checks > 0 {
      v := GuardedReaches(u, w, a, ExecutingTests, Testing(checks - 1, Some(stats), next));
      v := TestingReaches(u, v, a, checks - 1, stats, next);
    }
  }

  lemma PreparingReaches(u: World, w: World, a: nat, checks: nat, stats: Option<Stats>) returns (v: World)
    requires Reaches(u, w) && IsAt(w, a, Claimed, Driving(checks, stats))
    ensures Reaches(u, v) && IsAt(v, a, ValidatingEnvironment, Starting(checks, stats))
  {
    hide Reaches, IsAt;
    var starting := Starting(checks, stats);
    var validating := Entering(ValidatingEnvironment, Guarded(starting));
    v := GuardedReaches(u, w, a, Claimed, Entering(PreparingWorkspace, validating));
    v := EnteringReaches(u, v, a, Claimed, PreparingWorkspace, validating);
    v := EnteringReaches(u, v, a, PreparingWorkspace, ValidatingEnvironment, Guarded(starting));
    v := GuardedReaches(u, v, a, ValidatingEnvironment, starting);
  }

  lemma StartingReaches(u: World, w: World, a: nat, checks: nat, stats: Option<Stats>) returns (v: World)
    requires Reaches(u, w) && IsAt(w, a, ValidatingEnvironment, Starting(checks, stats))
    ensures Reaches(u, v) && IsAt(v, a, StartingEnvironment, Waiting(checks, stats))
  {
    hide Reaches, IsAt;
    var waiting := Waiting(checks, stats);
    v := EnteringReaches(u, w, a, ValidatingEnvironment, PullingImages, Entering(StartingEnvironment, Guarded(waiting)));
    v := EnteringReaches(u, v, a, PullingImages, StartingEnvironment, Guarded(waiting));
    v := GuardedReaches(u, v, a, StartingEnvironment, waiting);
  }

  lemma WaitingReaches(u: World, w: World, a: nat, checks: nat, stats: Stats) returns (v: World)
    requires Reaches(u, w) && IsAt(w, a, StartingEnvironment, Waiting(checks, Some(stats)))
    ensures Reaches(u, v) && IsAt(v, a, ExecutingTests, Collecting(Some(stats)))
  {
    hide Reaches, IsAt;
    var collecting := Collecting(Some(stats));
    var testing := Testing(checks, Some(stats), collecting);
    v := EnteringReaches(u, w, a, StartingEnvironment, WaitingForHealthcheck, Entering(ExecutingTests, testing));
    v := EnteringReaches(u, v, a, WaitingForHealthcheck, ExecutingTests, testing);
    v := TestingReaches(u, v, a, checks, stats, collecting);
  }

  lemma CollectingReaches(u: World, w: World, a: nat, stats: Stats) returns (v: World)
    requires Reaches(u, w) && IsAt(w, a, ExecutingTests, Collecting(Some(stats)))
    ensures Reaches(u, v) && v.system.row.status == Target(FinalOp(stats)) && v.system.row.stats == stats
  {
    hide Reaches, IsAt, Caught, Cancelling, Called, Advance;
    var report := Either(Stop, Caught());
    v := EnteringReaches(u, w, a, ExecutingTests, CollectingArtifacts, Entering(CleaningUp, Finishing(stats)));
    v := EnteringReaches(u, v, a, CollectingArtifacts, CleaningUp, Finishing(stats));
    v := AskReaches(u, v, a, CleaningUp, Call(MarkCancelled, report, Caught()), Call(FinalOp(stats), report, Caught()));
    v := CallReaches(u, v, a, CleaningUp, FinalOp(stats), report, Caught());
  }

  lemma QueuedWorld(start: Time, roles: map<nat, Role>, a: nat) returns (v: World)
    requires a in roles
    ensures Reaches(Cast(start, roles), v) && IsAt(v, a, Queued, ProgramOf(roles[a]))
    ensures v.system.row.leaseExpiresAt.None?
  {
    hide Reaches, ProgramOf;
    var u := Cast(start, roles);
    ReachesItself(u);
    OneMoreMove(u, u, Happen(Enqueue(start)));
    v := Advance(u, Happen(Enqueue(start)));
  }

  /** From the queue to the claim. */
  lemma ClaimReaches(u: World, w: World, a: nat, runner: RunnerId, leaseMs: int, checks: nat, stats: Option<Stats>)
    returns (v: World)
    requires Reaches(u, w) && IsAt(w, a, Queued, Executing(runner, leaseMs, checks, stats))
    requires w.system.row.leaseExpiresAt.None?
    ensures Reaches(u, v) && IsAt(v, a, Claimed, Driving(checks, stats))
  {
    hide Reaches, IsAt, Driving, Caught, Cancelling;
    var mark := Call(MarkCancelled, Either(Stop, Caught()), Caught());
    var refused := Either(Ask(Cancelling(), Stop), Caught());
    var claim := Call(Claim(runner, leaseMs), Driving(checks, stats), refused);
    var queued := Either(Stop, Either(Caught(), claim));
    v := EitherReaches(u, w, a, Queued, Caught(), Ask(Call(RequestCancel, mark, mark), queued));
    v := AskReaches(u, v, a, Queued, Call(RequestCancel, mark, mark), queued);
    v := EitherReaches(u, v, a, Queued, Stop, Either(Caught(), claim));
    v := EitherReaches(u, v, a, Queued, Caught(), claim);
    v := CallReaches(u, v, a, Queued, Claim(runner, leaseMs), Driving(checks, stats), refused);
  }

  /** From the queue to the verdict. */
  lemma ExecutingReaches(u: World, w: World, a: nat, runner: RunnerId, leaseMs: int, checks: nat, stats: Stats)
    returns (v: World)
    requires Reaches(u, w) && IsAt(w, a, Queued, Executing(runner, leaseMs, checks, Some(stats)))
    requires w.system.row.leaseExpiresAt.None?
    ensures Reaches(u, v) && v.system.row.status == Target(FinalOp(stats)) && v.system.row.stats == stats
  {
    hide Reaches, IsAt, Executing, Driving, Starting, Waiting, Collecting;
    v := ClaimReaches(u, w, a, runner, leaseMs, checks, Some(stats));
    v := PreparingReaches(u, v, a, checks, Some(stats));
    v := StartingReaches(u, v, a, checks, Some(stats));
    v := WaitingReaches(u, v, a, checks, stats);
    v := CollectingReaches(u, v, a, stats);
  }

  /** Whatever the worker finds to run ends, one way or the other. */
  ghost predicate CanBeRun(h: ExecutionPlans.Host, t: Tests) {
    && AllResolve(h, t.suites)
    && forall places :: AreTestPlaces(h, t.suites, places) ==>
         forall k :: 0 <= k < |places| ==>
           !t.steps.aborts(k) && t.steps.run(k, StepAt(h, t.suites, places[k])).StepDone?
  }

  lemma RunnerHasStats(h: ExecutionPlans.Host, t: Tests)
    requires CanBeRun(h, t) && IsOutcome(h, t.suites, t.steps, t.stats, t.results)
    ensures t.stats.Some?
  {
    var places := SchedulePlaces(h, t.suites);
    assert AreRun(Schedule(h, t.suites), 0, t.steps);
  }

  /**
   * A worker left alone with suites it can run to the end takes a new run through every phase to the verdict of its
   * tests: TEST_FAILED exactly if one of them failed.
   */
  lemma LoneWorkerReachesVerdict(h: ExecutionPlans.Host, start: Time, roles: map<nat, Role>, a: nat) returns (v: World)
    requires a in roles && roles[a].Worker? && IsRunner(h, roles[a]) && CanBeRun(h, roles[a].tests)
    ensures Reaches(Cast(start, roles), v) && HasVerdict(v.system.row)
    ensures exists places :: IsVerdictOf(v.system.row, h, roles[a].tests, places)
  {
    hide Reaches, IsAt, Executing, IsOutcome, IsVerdictOf, CanBeRun;
    var tests := roles[a].tests;
    RunnerHasStats(h, tests);
    v := QueuedWorld(start, roles, a);
    v := ExecutingReaches(Cast(start, roles), v, a, roles[a].runner, roles[a].leaseMs, roles[a].checks, tests.stats.value);
    var places := VerdictOfTests(v.system.row, h, tests);
  }
}
