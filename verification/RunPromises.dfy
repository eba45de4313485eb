/** What the callers of the state service see to: an accepted cancellation is carried out, and every error ends a run. */
module RunPromises {
  import opened Wrappers
  import opened RunStatus
  import opened RunRow
  import opened RunProtocol
  import opened RunProtocolProofs
  import opened RunTheorems
  import opened RunPrograms

  // ---------- Cancellation ----------

  /**
   * On a run whose cancellation was accepted, every way through `p` comes to the operation that marks it cancelled:
   * whoever asks is told so, and all other operations are refused.
   */
  predicate Obeys(p: Program) {
    match p
    case Stop => false
    case Call(op, done, failed) =>
      if op.MarkCancelled? then true
      else if op.RequestCancel? then Obeys(done) && Obeys(failed)
      else Obeys(failed)
    case Ask(yes, _) => Obeys(yes)
    case Poll(aborted, next) => Obeys(aborted) && Obeys(next)
    case Either(one, other) => Obeys(one) && Obeys(other)
  }

  predicate ThreadObeys(t: Thread, job: Job) {
    match t
    case Ready(p) => Obeys(p)
    case Calling(done, failed) =>
      match job
      case Idle => false
      case Begun(op, _) => op.MarkCancelled? || (Obeys(failed) && (op.RequestCancel? ==> Obeys(done)))
      case HasRead(op, _, seen, _) =>
        if seen.status == Status.CancelRequested then
          op.MarkCancelled? || (op.RequestCancel? && Obeys(done) && Obeys(failed))
        else !op.MarkCancelled? && Obeys(failed)
  }

  /** The run is cancelled, or will be if actor `a` comes to its end. */
  ghost predicate IsCarriedOut(w: World, a: nat) {
    && Inv(w.system) && a in w.threads
    && (|| w.system.row.status == Cancelled
        || (w.system.row.status == Status.CancelRequested && ThreadObeys(w.threads[a], ActorOf(w.system, a).job)))
  }

  lemma CancellationStays(s: System, e: Event)
    requires Inv(s) && (s.row.status == Status.CancelRequested || s.row.status == Cancelled)
    ensures Inv(Step(s, e))
    ensures var t := Step(s, e).row.status;
            t == Cancelled || (t == Status.CancelRequested && s.row.status == Status.CancelRequested)
  {
    StepKeepsInv(s, e);
    StepKeeps(s, e);
  }

  lemma OwnStepObeys(w: World, e: Event, a: nat)
    requires IsCarriedOut(w, a) && IsAllowed(w, e) && ActsFor(e, a) && !e.Crash?
    requires After(w, e).system.row.status == Status.CancelRequested == w.system.row.status
    ensures ThreadObeys(After(w, e).threads[a], ActorOf(After(w, e).system, a).job)
  {
    if ActorOf(w.system, a).job.HasRead? {
      assert ActorInv(w.system.actors[a], w.system.row, w.system.clock);
    }
    hide Inv;
  }

  lemma StepIsCarriedOut(w: World, e: Event, a: nat)
    requires IsCarriedOut(w, a) && IsAllowed(w, e) && e != Crash(a)
    ensures IsCarriedOut(After(w, e), a)
  {
    CancellationStays(w.system, e);
    hide Inv, Step, ThreadsAfter;
    if After(w, e).system.row.status != Cancelled {
      if ActsFor(e, a) { OwnStepObeys(w, e, a); } else { OthersAreUntouched(w, e, a); }
    }
  }

  lemma ObservingKeepsJobs(s: System, b: nat)
    ensures Step(s, Observe(b)).row == s.row
    ensures forall a :: ActorOf(Step(s, Observe(b)), a).job == ActorOf(s, a).job
  {
  }

  lemma MoveIsCarriedOut(w: World, m: Move, a: nat)
    requires IsCarriedOut(w, a) && m != Happen(Crash(a))
    ensures IsCarriedOut(Advance(w, m), a)
  {
    hide Inv, Step;
    match m
    case Happen(e) => if IsAllowed(w, e) { StepIsCarriedOut(w, e, a); }
    case AskNow(b) =>
      if IsAsking(w, b) {
        StepIsCarriedOut(w, Observe(b), a);
        ObservingKeepsJobs(w.system, b);
      }
    case Pick(b, first) =>
  }

  lemma {:induction false} RunIsCarriedOut(w: World, moves: seq<Move>, a: nat)
    requires IsCarriedOut(w, a) && Happen(Crash(a)) !in moves
    ensures IsCarriedOut(RunAll(w, moves), a)
    decreases |moves|
  {
    if moves != [] {
      MoveIsCarriedOut(w, moves[0], a);
      RunIsCarriedOut(Advance(w, moves[0]), moves[1..], a);
    }
  }

  /** Wherever a worker stands when the run is not yet its own, in the phases, in the `catch` or at the end, it obeys. */
  lemma WorkersObey(runner: RunnerId, leaseMs: int, checks: nat, stats: Option<Stats>, phase: Status, next: Program)
    ensures Obeys(Executing(runner, leaseMs, checks, stats)) && Obeys(Driving(checks, stats))
    ensures Obeys(Guarded(next)) && Obeys(Entering(phase, next)) && Obeys(Caught()) && Obeys(Cancelling())
    ensures checks > 0 ==> Obeys(Testing(checks, stats, next))
    ensures stats.Some? ==> Obeys(Finishing(stats.value))
  {
    CancellingObeys();
    GuardedObeys(next);
    if checks > 0 { GuardedObeys(Testing(checks - 1, stats, next)); }
    GuardedObeys(Entering(PreparingWorkspace, Entering(ValidatingEnvironment, Guarded(Starting(checks, stats)))));
  }

  lemma CancellingObeys()
    ensures Obeys(Cancelling()) && Obeys(Caught())
  {
    assert Obeys(Call(MarkCancelled, Stop, Stop));
  }

  lemma GuardedObeys(next: Program)
    ensures Obeys(Guarded(next))
  {
    CancellingObeys();
    assert Obeys(Ask(Cancelling(), Fallible(next)));
    assert Obeys(Either(Caught(), Ask(Cancelling(), Fallible(next))));
  }

  /**
   * Once a cancellation is accepted, a worker that obeys and is not killed leaves the run cancelled when it is done,
   * whatever everybody else does in the meantime.
   */
  lemma AcceptedCancelIsCarriedOut(start: Time, roles: map<nat, Role>, before: seq<Move>, later: seq<Move>, a: nat)
    requires var w := RunAll(Cast(start, roles), before);
             && w.system.row.status == Status.CancelRequested && a in w.threads
             && ThreadObeys(w.threads[a], ActorOf(w.system, a).job)
    requires Happen(Crash(a)) !in later
    ensures var v := RunAll(RunAll(Cast(start, roles), before), later);
            a in v.threads && (v.threads[a] == Ready(Stop) ==> v.system.row.status == Cancelled)
  {
    var w := RunAll(Cast(start, roles), before);
    InterleavingsAreDisciplined(start, roles, before);
    Reachable(start, EmittedAll(Cast(start, roles), before));
    RunIsCarriedOut(w, later, a);
  }

  /**
   * A worker that was told before the acceptance that there is no cancellation, and is about to record its failure,
   * does not obey: that operation is refused, the worker is done, and the run is left for the sweep.
   */
  lemma LateCancelIsLeft(u: World, w: World, a: nat, category: Category) returns (v: World)
    requires Reaches(u, w) && Stands(w, a, Status.CancelRequested, Call(MarkInfraFailed(category), Stop, Stop))
    ensures Reaches(u, v) && Stands(v, a, Status.CancelRequested, Stop)
  {
    var op := MarkInfraFailed(category);
    OneMoreMove(u, w, Happen(Begin(a, op)));
    var begun := Advance(w, Happen(Begin(a, op)));
    OneMoreMove(u, begun, Happen(Read(a)));
    v := Advance(begun, Happen(Read(a)));
    hide Reaches;
    assert begun.threads[a] == Calling(Stop, Stop) && begun.system.row == w.system.row;
  }

  // ---------- Errors, sweeps and requests ----------

  /** Actor `a` is about to go on with `p` on a run in this status. */
  predicate Stands(w: World, a: nat, status: Status, p: Program) {
    a in w.threads && w.threads[a] == Ready(p) && ActorOf(w.system, a).job.Idle? && w.system.row.status == status
  }

  lemma CalledStands(w: World, a: nat, status: Status, op: Op, done: Program, failed: Program)
    requires Stands(w, a, status, Call(op, done, failed)) && Permitted(op, status) && !op.Claim?
    ensures Stands(Called(w, a, op), a, Target(op), done)
    ensures op.MarkInfraFailed? ==> Called(w, a, op).system.row.failureCategory == Some(op.category)
  {
    var begun := Advance(w, Happen(Begin(a, op)));
    assert begun.threads[a] == Calling(done, failed) && begun.system.row == w.system.row;
    var read := Advance(begun, Happen(Read(a)));
    assert read.threads[a] == Calling(done, failed) && read.system.row == w.system.row;
  }

  lemma CallLeads(u: World, w: World, a: nat, status: Status, op: Op, done: Program, failed: Program) returns (v: World)
    requires Reaches(u, w) && Stands(w, a, status, Call(op, done, failed)) && Permitted(op, status) && !op.Claim?
    ensures Reaches(u, v) && Stands(v, a, Target(op), done) && v.system.row.status == Target(op)
    ensures op.MarkInfraFailed? ==> v.system.row.failureCategory == Some(op.category)
  {
    CalledStands(w, a, status, op, done, failed);
    hide Reaches, Advance, Permitted;
    OneMoreMove(u, w, Happen(Begin(a, op)));
    var begun := Advance(w, Happen(Begin(a, op)));
    OneMoreMove(u, begun, Happen(Read(a)));
    var read := Advance(begun, Happen(Read(a)));
    OneMoreMove(u, read, Happen(Write(a, read.system.clock)));
    v := Called(w, a, op);
  }

  lemma ChoiceLeads(u: World, w: World, a: nat, status: Status, one: Program, other: Program, first: bool)
    returns (v: World)
    requires Reaches(u, w) && Stands(w, a, status, Either(one, other))
    ensures Reaches(u, v) && Stands(v, a, status, if first then one else other) && v.system == w.system
  {
    OneMoreMove(u, w, Pick(a, first));
    v := Advance(w, Pick(a, first));
  }

  lemma AnswerLeads(u: World, w: World, a: nat, status: Status, yes: Program, no: Program) returns (v: World)
    requires Reaches(u, w) && Stands(w, a, status, Ask(yes, no))
    ensures Reaches(u, v) && Stands(v, a, status, if CancellationSeen(w.system.row) then yes else no)
    ensures v.system.row == w.system.row
  {
    OneMoreMove(u, w, AskNow(a));
    v := Advance(w, AskNow(a));
  }

  lemma {:induction false} FailureLeads(u: World, w: World, a: nat, status: Status, categories: seq<Category>, k: nat)
    returns (v: World)
    requires Reaches(u, w) && Stands(w, a, status, InfraFailures(categories)) && k <= |categories|
    requires CanTransition(status, if k < |categories| then InfraFailed else TimedOut)
    ensures Reaches(u, v)
    ensures if k < |categories| then
              v.system.row.status == InfraFailed && v.system.row.failureCategory == Some(categories[k])
            else v.system.row.status == TimedOut
    decreases |categories|
  {
    hide Reaches, Stands;
    if categories == [] {
      v := CallLeads(u, w, a, status, MarkTimedOut, Stop, Stop);
    } else {
      var one, other := Call(MarkInfraFailed(categories[0]), Stop, Stop), InfraFailures(categories[1..]);
      v := ChoiceLeads(u, w, a, status, one, other, k == 0);
      if k == 0 {
        v := CallLeads(u, v, a, status, MarkInfraFailed(categories[0]), Stop, Stop);
      } else {
        v := FailureLeads(u, v, a, status, categories[1..], k - 1);
      }
    }
  }

  /** Whatever is thrown at a worker on a run that nobody cancelled can end as an infrastructure failure of its category. */
  lemma ErrorsEndTheRun(u: World, w: World, a: nat, status: Status, category: Category) returns (v: World)
    requires Reaches(u, w) && Stands(w, a, status, Caught()) && CanTransition(status, InfraFailed)
    requires !CancellationSeen(w.system.row)
    ensures Reaches(u, v) && v.system.row.status == InfraFailed && v.system.row.failureCategory == Some(category)
  {
    var k := PlaceOfCategory(category);
    hide Reaches, Stands, CancellationSeen, InfraFailures;
    v := AnswerLeads(u, w, a, status, Cancelling(), InfraFailures(CATEGORIES));
    v := FailureLeads(u, v, a, status, CATEGORIES, k);
  }

  lemma PlaceOfCategory(category: Category) returns (k: nat)
    ensures k < |CATEGORIES| && CATEGORIES[k] == category
  {
    k := match category
      case TestAssertion => 0
      case EnvironmentValidation => 1
      case ImagePull => 2
      case ContainerStart => 3
      case Healthcheck => 4
      case Network => 5
      case Timeout => 6
      case Cancellation => 7
      case Internal => 8;
  }

  /** A time-out can end as one where the table has the edge for it. */
  lemma TimeoutsEndTheRun(u: World, w: World, a: nat, status: Status) returns (v: World)
    requires Reaches(u, w) && Stands(w, a, status, Caught()) && (status == WaitingForHealthcheck || status == ExecutingTests)
    requires !CancellationSeen(w.system.row)
    ensures Reaches(u, v) && v.system.row.status == TimedOut
  {
    hide Reaches, Stands, CancellationSeen, InfraFailures;
    v := AnswerLeads(u, w, a, status, Cancelling(), InfraFailures(CATEGORIES));
    v := FailureLeads(u, v, a, status, CATEGORIES, |CATEGORIES|);
  }

  /** The endpoint brings a run to CANCEL_REQUESTED, and on to CANCELLED where it finds the job gone. */
  lemma RequestsAreAccepted(u: World, w: World, a: nat, status: Status) returns (v: World, gone: World)
    requires Reaches(u, w) && Stands(w, a, status, ProgramOf(CancelEndpoint))
    requires CanTransition(status, Status.CancelRequested)
    ensures Reaches(u, v) && v.system.row.status == Status.CancelRequested
    ensures Reaches(u, gone) && gone.system.row.status == Cancelled
  {
    hide Reaches, Stands;
    var mark := Call(MarkCancelled, Stop, Stop);
    v := ChoiceLeads(u, w, a, status, Stop, Call(RequestCancel, Perhaps(mark), Stop), false);
    v := CallLeads(u, v, a, status, RequestCancel, Perhaps(mark), Stop);
    gone := ChoiceLeads(u, v, a, Status.CancelRequested, Stop, mark, false);
    gone := CallLeads(u, gone, a, Status.CancelRequested, MarkCancelled, Stop, Stop);
  }

  /** The sweep fails a run nobody cancelled, and cancels one whose cancellation was accepted. */
  lemma SweepsEndTheRun(u: World, w: World, a: nat, status: Status) returns (v: World)
    requires Reaches(u, w) && Stands(w, a, status, ProgramOf(Janitor))
    requires if CancellationSeen(w.system.row) then status == Status.CancelRequested else CanTransition(status, InfraFailed)
    ensures Reaches(u, v)
    ensures if CancellationSeen(w.system.row) then v.system.row.status == Cancelled
            else v.system.row.status == InfraFailed && v.system.row.failureCategory == Some(Internal)
  {
    hide Reaches, Stands, CancellationSeen;
    var cancel, fail := Call(MarkCancelled, Stop, Stop), Call(MarkInfraFailed(Internal), Stop, Stop);
    v := ChoiceLeads(u, w, a, status, Stop, Ask(Perhaps(cancel), Perhaps(fail)), false);
    v := AnswerLeads(u, v, a, status, Perhaps(cancel), Perhaps(fail));
    if CancellationSeen(w.system.row) {
      v := ChoiceLeads(u, v, a, status, Stop, cancel, false);
      v := CallLeads(u, v, a, status, MarkCancelled, Stop, Stop);
    } else {
      v := ChoiceLeads(u, v, a, status, Stop, fail, false);
      v := CallLeads(u, v, a, status, MarkInfraFailed(Internal), Stop, Stop);
    }
  }

  /** A run that cannot be queued, and one whose job has failed for good, can be failed. */
  lemma FailedJobsEndTheRun(u: World, w: World, a: nat, status: Status, role: Role) returns (v: World)
    requires role == Creation || role == FailedJob
    requires Reaches(u, w) && Stands(w, a, status, ProgramOf(role)) && CanTransition(status, InfraFailed)
    ensures Reaches(u, v) && v.system.row.status == InfraFailed && v.system.row.failureCategory == Some(Internal)
  {
    hide Reaches, Stands;
    v := ChoiceLeads(u, w, a, status, Stop, Call(MarkInfraFailed(Internal), Stop, Stop), false);
    v := CallLeads(u, v, a, status, MarkInfraFailed(Internal), Stop, Stop);
  }
}
