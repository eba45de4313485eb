/** Statuses of a test run and the table of allowed transitions. */
module RunStatus {
  datatype Status =
    | Created | Queued | Claimed
    | PreparingWorkspace | ValidatingEnvironment | PullingImages | StartingEnvironment
    | WaitingForHealthcheck | ExecutingTests | CollectingArtifacts | CleaningUp
    | CancelRequested
    | Passed | TestFailed | InfraFailed | TimedOut | Cancelled

  const PHASES: seq<Status> :=
    [PreparingWorkspace, ValidatingEnvironment, PullingImages, StartingEnvironment,
     WaitingForHealthcheck, ExecutingTests, CollectingArtifacts, CleaningUp]

  predicate IsPhase(s: Status) {
    || s.PreparingWorkspace? || s.ValidatingEnvironment? || s.PullingImages? || s.StartingEnvironment?
    || s.WaitingForHealthcheck? || s.ExecutingTests? || s.CollectingArtifacts? || s.CleaningUp?
  }

  predicate IsTerminal(s: Status) {
    s.Passed? || s.TestFailed? || s.InfraFailed? || s.TimedOut? || s.Cancelled?
  }

  /** The statuses `cancel` lets through to a cancellation request. */
  predicate IsCancellable(s: Status) {
    s.Queued? || s.Claimed? || IsPhase(s)
  }

  /** Statuses in which a worker is driving the run. */
  predicate IsDriven(s: Status) {
    s.Claimed? || IsPhase(s)
  }

  function AllowedTargets(from: Status): set<Status> {
    match from
    case Created => {Queued, InfraFailed}
    case Queued => {Claimed, CancelRequested, InfraFailed}
    case Claimed => {PreparingWorkspace, CancelRequested, InfraFailed}
    case PreparingWorkspace => {ValidatingEnvironment, CancelRequested, InfraFailed}
    case ValidatingEnvironment => {PullingImages, CancelRequested, InfraFailed}
    case PullingImages => {StartingEnvironment, CancelRequested, InfraFailed}
    case StartingEnvironment => {WaitingForHealthcheck, CancelRequested, InfraFailed}
    case WaitingForHealthcheck => {ExecutingTests, CancelRequested, InfraFailed, TimedOut}
    case ExecutingTests => {CollectingArtifacts, CancelRequested, TestFailed, TimedOut, InfraFailed}
    case CollectingArtifacts => {CleaningUp, CancelRequested, InfraFailed}
    case CleaningUp => {Passed, TestFailed, InfraFailed, Cancelled}
    case CancelRequested => {Cancelled}
    case Passed | TestFailed | InfraFailed | TimedOut | Cancelled => {}
  }

  predicate CanTransition(from: Status, to: Status) {
    !IsTerminal(from) && (from == to || to in AllowedTargets(from))
  }

  /** Position of a phase in `PHASES`, counted from 0. */
  function PhaseIndex(s: Status): nat
    requires IsPhase(s)
  {
    match s
    case PreparingWorkspace => 0
    case ValidatingEnvironment => 1
    case PullingImages => 2
    case StartingEnvironment => 3
    case WaitingForHealthcheck => 4
    case ExecutingTests => 5
    case CollectingArtifacts => 6
    case CleaningUp => 7
  }

  /** Number of edges on the longest way from CREATED to a status. */
  function Depth(s: Status): nat {
    match s
    case Created => 0
    case Queued => 1
    case Claimed => 2
    case CancelRequested => 10
    case Passed | TestFailed | InfraFailed | TimedOut | Cancelled => 11
    case _ => 3 + PhaseIndex(s)
  }

  lemma PhaseIndexInvertsPhases(s: Status, i: nat)
    requires i < |PHASES|
    ensures IsPhase(PHASES[i]) && PhaseIndex(PHASES[i]) == i
    ensures IsPhase(s) && PhaseIndex(s) == i ==> s == PHASES[i]
  {
    assert i == 0 || i == 1 || i == 2 || i == 3 || i == 4 || i == 5 || i == 6 || i == 7;
  }

  /** The table has no cycle apart from self-loops: a change of status always goes deeper. */
  lemma TransitionsDescend(from: Status, to: Status)
    requires CanTransition(from, to) && from != to
    ensures Depth(from) < Depth(to)
  {
  }

  /** A phase is entered from its predecessor only, and the first one from CLAIMED. */
  lemma PhaseEnteredInOrder(from: Status, to: Status)
    requires CanTransition(from, to) && from != to && IsPhase(to)
    ensures PhaseIndex(to) == 0 ==> from == Claimed
    ensures PhaseIndex(to) > 0 ==> IsPhase(from) && PhaseIndex(to) == PhaseIndex(from) + 1
  {
  }

  /** The table read backwards: which statuses have an edge to a given one. */
  lemma EdgesByTarget(from: Status, to: Status)
    requires from != to
    ensures CanTransition(from, to) <==>
              match to
              case Created => false
              case Queued => from == Created
              case Claimed => from == Queued
              case PreparingWorkspace => from == Claimed
              case ValidatingEnvironment => from == PreparingWorkspace
              case PullingImages => from == ValidatingEnvironment
              case StartingEnvironment => from == PullingImages
              case WaitingForHealthcheck => from == StartingEnvironment
              case ExecutingTests => from == WaitingForHealthcheck
              case CollectingArtifacts => from == ExecutingTests
              case CleaningUp => from == CollectingArtifacts
              case CancelRequested => from == Queued || from == Claimed || (from in PHASES && from != CleaningUp)
              case Passed => from == CleaningUp
              case TestFailed => from == ExecutingTests || from == CleaningUp
              case InfraFailed => from in {Created, Queued, Claimed} || from in PHASES
              case TimedOut => from == WaitingForHealthcheck || from == ExecutingTests
              case Cancelled => from == CleaningUp || from == CancelRequested
  {
  }

  /** The groups of statuses by the table: what is finished has no edge, what is cancellable accepts or is cleaning up. */
  lemma GroupsByTable(s: Status)
    ensures IsTerminal(s) <==> forall t :: !CanTransition(s, t)
    ensures IsCancellable(s) <==> s == CleaningUp || (s != CancelRequested && CanTransition(s, CancelRequested))
    ensures IsPhase(s) <==> s in PHASES
    ensures IsDriven(s) <==> s == Claimed || s in PHASES
  {
    if !IsTerminal(s) { assert CanTransition(s, s); }
  }

  /** CLEANING_UP is listed as cancellable but has no edge to CANCEL_REQUESTED; every other one has. */
  lemma AcceptsCancel(s: Status)
    requires IsCancellable(s)
    ensures CanTransition(s, CancelRequested) <==> s != CleaningUp
  {
  }
}
