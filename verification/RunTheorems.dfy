/** What the row keeps over whole runs, whatever the interleaving. */
module RunTheorems {
  import opened Wrappers
  import opened RunStatus
  import opened RunRow
  import opened RunProtocol
  import opened RunProtocolProofs

  // ---------- Refinement: split operations amount to indivisible ones ----------

  datatype Action =
    | Perform(op: Op, begun: Time, now: Time)
    | Queue(now: Time)
    | Extend(runner: RunnerId, leaseMs: int, now: Time)

  function Act(row: Row, action: Action): Row {
    match action
    case Perform(op, begun, now) => Atomically(row, op, begun, now)
    case Queue(now) => QueuedIfCreated(row, now)
    case Extend(runner, leaseMs, now) => Renewed(row, runner, leaseMs, now)
  }

  function ActAll(row: Row, actions: seq<Action>): Row
    decreases |actions|
  {
    if actions == [] then row else ActAll(Act(row, actions[0]), actions[1..])
  }

  /** The write of actor `a` is enabled and its condition holds of the row. */
  predicate WriteSucceeds(s: System, a: nat, now: Time) {
    var job := ActorOf(s, a).job;
    job.HasRead? && job.readAt <= now <= s.clock && Matches(s.row, job.op, job.seen, job.begun)
  }

  /** The indivisible operation that an event completes, if it completes one. */
  function Completed(s: System, e: Event): seq<Action> {
    match e
    case Write(a, now) =>
      if WriteSucceeds(s, a, now) then [Perform(ActorOf(s, a).job.op, ActorOf(s, a).job.begun, now)] else []
    case Enqueue(now) => if now <= s.clock then [Queue(now)] else []
    case Renew(runner, leaseMs, now) => if now <= s.clock then [Extend(runner, leaseMs, now)] else []
    case _ => []
  }

  function CompletedAll(s: System, events: seq<Event>): seq<Action>
    decreases |events|
  {
    if events == [] then [] else Completed(s, events[0]) + CompletedAll(Step(s, events[0]), events[1..])
  }

  /**
   * A compare-and-swap on the status alone loses no update: a write that succeeds finds the status and
   * the phase timestamps its read saw, and leaves what reading and writing in one step would have left.
   */
  lemma NoLostUpdate(start: Time, events: seq<Event>, a: nat, now: Time)
    requires WriteSucceeds(Exec(Initial(start), events), a, now)
    ensures var s := Exec(Initial(start), events);
            var job := ActorOf(s, a).job;
            && job.seen.status == s.row.status && job.seen.phaseTimestamps == s.row.phaseTimestamps
            && Permitted(job.op, s.row.status)
            && Step(s, Write(a, now)).row == Atomically(s.row, job.op, job.begun, now)
  {
    Reachable(start, events);
    SuccessfulWriteSawTheRow(Exec(Initial(start), events), a);
  }

  lemma StepRefinesAction(s: System, e: Event)
    requires Inv(s)
    ensures Step(s, e).row == ActAll(s.row, Completed(s, e))
  {
    if e.Write? && WriteSucceeds(s, e.actor, e.now) {
      SuccessfulWriteSawTheRow(s, e.actor);
    }
  }

  lemma {:induction false} ActAllAppends(row: Row, first: seq<Action>, rest: seq<Action>)
    ensures ActAll(row, first + rest) == ActAll(ActAll(row, first), rest)
    decreases |first|
  {
    if first == [] {
      assert first + rest == rest;
    } else {
      assert (first + rest)[1..] == first[1..] + rest;
      ActAllAppends(Act(row, first[0]), first[1..], rest);
    }
  }

  lemma {:induction false} ExecRefinesActions(s: System, events: seq<Event>)
    requires Inv(s)
    ensures Exec(s, events).row == ActAll(s.row, CompletedAll(s, events))
    decreases |events|
  {
    if events != [] {
      var t := Step(s, events[0]);
      StepRefinesAction(s, events[0]);
      StepKeepsInv(s, events[0]);
      ExecRefinesActions(t, events[1..]);
      ActAllAppends(s.row, Completed(s, events[0]), CompletedAll(t, events[1..]));
    }
  }

  /** Every interleaving leaves the row that its completed operations leave when run one after another, undivided. */
  lemma RunsAreSerializable(start: Time, events: seq<Event>)
    ensures Exec(Initial(start), events).row == ActAll(NEW_ROW, CompletedAll(Initial(start), events))
  {
    InitialInv(start);
    ExecRefinesActions(Initial(start), events);
  }

  // ---------- One state: what every reachable row satisfies ----------

  /** The keys of the phase history are a prefix of the eight phases, ending at the current one. */
  lemma HistoryIsOrderedPrefix(start: Time, events: seq<Event>)
    ensures var r := Exec(Initial(start), events).row;
            && (exists n: nat :: n <= |PHASES| && IsPrefix(r.phaseTimestamps, n))
            && (IsPhase(r.status) ==> IsPrefix(r.phaseTimestamps, PhaseIndex(r.status) + 1))
            && (r.status == Passed ==> IsPrefix(r.phaseTimestamps, |PHASES|))
            && r.currentPhase == (if IsPhase(r.status) then Some(r.status) else None)
            && Ascending(r.phaseTimestamps)
            && (r.queuedAt.Some? ==> NotBefore(r.queuedAt.value, r.phaseTimestamps))
  {
    Reachable(start, events);
  }

  lemma LeasesAreExclusive(start: Time, events: seq<Event>, i: nat, j: nat)
    requires i < j < |Exec(Initial(start), events).leases|
    ensures var s := Exec(Initial(start), events); s.leases[i].expiresAt < s.leases[j].effectiveAt
  {
    Reachable(start, events);
  }

  /** `attempt` counts the claims; a driven run has the runner of the last one, and its expiry is the last one written. */
  lemma LeaseFieldsTellTheHistory(start: Time, events: seq<Event>)
    ensures var s := Exec(Initial(start), events);
            && s.row.attempt == |s.leases|
            && (IsDriven(s.row.status) ==>
                  && s.leases != []
                  && s.row.runnerId == Some(s.leases[|s.leases| - 1].runner)
                  && s.row.leaseExpiresAt == Some(s.leases[|s.leases| - 1].expiresAt))
            && (IsTerminal(s.row.status) ==> NoLease(s.row))
  {
    Reachable(start, events);
  }

  lemma OutcomeMatchesStatus(start: Time, events: seq<Event>)
    ensures var s := Exec(Initial(start), events); OutcomeInv(s.row) && s.changes <= 11
  {
    Reachable(start, events);
  }

  // ---------- Two states: what no later step undoes ----------

  /** What row `w`, at a later point of the same run, keeps of row `r`. */
  ghost predicate Keeps(r: Row, w: Row) {
    && Depth(r.status) <= Depth(w.status)
    && (IsTerminal(r.status) ==> w == r)
    && (r.cancelRequestedAt.Some? ==> w.cancelRequestedAt.Some?)
    && (Depth(r.status) > Depth(Claimed) ==> w.attempt == r.attempt)
    && r.attempt <= w.attempt
    && (forall p: Status :: p in r.phaseTimestamps ==>
          p in w.phaseTimestamps && w.phaseTimestamps[p] == r.phaseTimestamps[p])
  }

  lemma WriteKeeps(r: Row, op: Op, begun: Time, now: Time)
    requires HistoryInv(r) && Permitted(op, r.status)
    requires op.Claim? ==> r.leaseExpiresAt.None? || r.leaseExpiresAt.value < begun
    ensures Keeps(r, Written(r, op, ReadSnapshot(r), begun, now))
  {
    WriteDescends(r, op, begun, now);
  }

  lemma StepKeeps(s: System, e: Event)
    requires Inv(s)
    ensures Keeps(s.row, Step(s, e).row)
  {
    if e.Write? && WriteSucceeds(s, e.actor, e.now) {
      var job := ActorOf(s, e.actor).job;
      SuccessfulWriteSawTheRow(s, e.actor);
      WriteKeeps(s.row, job.op, job.begun, e.now);
      assert Step(s, e).row == Written(s.row, job.op, job.seen, job.begun, e.now);
    } else {
      OtherStepsKeep(s, e);
    }
  }

  lemma OtherStepsKeep(s: System, e: Event)
    requires Inv(s) && !(e.Write? && WriteSucceeds(s, e.actor, e.now))
    ensures Keeps(s.row, Step(s, e).row)
  {
    var w := Step(s, e).row;
    assert w == s.row || (e.Enqueue? && w == QueuedIfCreated(s.row, e.now))
        || (e.Renew? && w == Renewed(s.row, e.runner, e.leaseMs, e.now));
  }

  lemma {:induction false} ExecKeeps(s: System, events: seq<Event>)
    requires Inv(s)
    ensures Keeps(s.row, Exec(s, events).row)
    decreases |events|
  {
    if events != [] {
      var t := Step(s, events[0]);
      StepKeeps(s, events[0]);
      StepKeepsInv(s, events[0]);
      ExecKeeps(t, events[1..]);
      KeepsIsTransitive(s.row, t.row, Exec(t, events[1..]).row);
    }
  }

  lemma KeepsIsTransitive(r: Row, t: Row, w: Row)
    requires Keeps(r, t) && Keeps(t, w)
    ensures Keeps(r, w)
  {
  }

  /** Timestamps of phases are never rewritten or removed. */
  lemma HistoryIsNeverRewritten(start: Time, events: seq<Event>, later: seq<Event>, p: Status)
    requires p in Exec(Initial(start), events).row.phaseTimestamps
    ensures var s := Exec(Initial(start), events);
            var t := Exec(s, later);
            p in t.row.phaseTimestamps && t.row.phaseTimestamps[p] == s.row.phaseTimestamps[p]
  {
    Reachable(start, events);
    ExecKeeps(Exec(Initial(start), events), later);
  }

  lemma AcceptedCancelWins(start: Time, events: seq<Event>, later: seq<Event>)
    requires Exec(Initial(start), events).row.cancelRequestedAt.Some?
    ensures var r := Exec(Exec(Initial(start), events), later).row;
            r.status == CancelRequested || r.status == Cancelled
  {
    Reachable(start, events);
    var s := Exec(Initial(start), events);
    ExecKeeps(s, later);
    ExecKeepsInv(s, later);
  }

  lemma TerminalRowIsFrozen(start: Time, events: seq<Event>, later: seq<Event>)
    requires IsTerminal(Exec(Initial(start), events).row.status)
    ensures var s := Exec(Initial(start), events); Exec(s, later).row == s.row
  {
    Reachable(start, events);
    ExecKeeps(Exec(Initial(start), events), later);
  }

  lemma AttemptIsFrozenPastClaim(start: Time, events: seq<Event>, later: seq<Event>)
    requires Depth(Exec(Initial(start), events).row.status) > Depth(Claimed)
    ensures var s := Exec(Initial(start), events); Exec(s, later).row.attempt == s.row.attempt
  {
    Reachable(start, events);
    ExecKeeps(Exec(Initial(start), events), later);
  }

  lemma ClaimOnRow(r: Row, runner: RunnerId, leaseMs: int, begun: Time, now: Time)
    requires LeaseFieldsInv(r)
    ensures Atomically(r, Claim(runner, leaseMs), begun, now).attempt == r.attempt + 1 <==>
            r.status == Queued || (r.status == Claimed && r.leaseExpiresAt.Some? && r.leaseExpiresAt.value < begun)
  {
  }

  // ---------- A run can be claimed twice ----------

  /** When a claim goes through: the run is queued, or it is claimed and its lease ran out before the claim began. */
  lemma ClaimSucceedsIff(start: Time, events: seq<Event>, runner: RunnerId, leaseMs: int, begun: Time, now: Time)
    ensures var r := Exec(Initial(start), events).row;
            var w := Atomically(r, Claim(runner, leaseMs), begun, now);
            w.attempt == r.attempt + 1 <==>
            r.status == Queued || (r.status == Claimed && r.leaseExpiresAt.Some? && r.leaseExpiresAt.value < begun)
  {
    Reachable(start, events);
    assert LeaseFieldsInv(Exec(Initial(start), events).row);
    hide Inv;
    ClaimOnRow(Exec(Initial(start), events).row, runner, leaseMs, begun, now);
  }

  /** Two workers of one run: the second claims it after the first one's lease has expired in CLAIMED. */
  function TwoClaims(): seq<Event> {
    [Enqueue(0), Begin(1, Claim("a", 5)), Read(1), Write(1, 0), Tick(6), Begin(2, Claim("b", 5)), Read(2), Write(2, 6)]
  }

  lemma ExecFrom(s: System, events: seq<Event>, i: nat)
    requires i < |events|
    ensures Exec(s, events[i..]) == Exec(Step(s, events[i]), events[i + 1..])
  {
    assert events[i..][1..] == events[i + 1..];
  }

  lemma FirstClaim(s: System)
    requires s == Exec(Initial(0), [])
    ensures var t := Step(Step(Step(Step(s, Enqueue(0)), Begin(1, Claim("a", 5))), Read(1)), Write(1, 0));
            t.row.status == Claimed && t.row.leaseExpiresAt == Some(5) && t.row.attempt == 1 && t.clock == 0
            && t.actors.Keys == {1}
  {
  }

  lemma SecondClaim(s: System)
    requires s.row.status == Claimed && s.row.leaseExpiresAt == Some(5) && s.row.attempt == 1 && s.clock == 0
    requires s.actors.Keys == {1}
    ensures var t := Step(Step(Step(Step(s, Tick(6)), Begin(2, Claim("b", 5))), Read(2)), Write(2, 6));
            t.row.attempt == 2 && t.row.runnerId == Some("b")
  {
  }

  lemma SecondClaimIsReachable()
    ensures Exec(Initial(0), TwoClaims()).row.attempt == 2
    ensures Exec(Initial(0), TwoClaims()).row.runnerId == Some("b")
  {
    hide Step;
    var es := TwoClaims();
    var s0 := Initial(0);
    var s1 := Step(s0, es[0]);
    var s2 := Step(s1, es[1]);
    var s3 := Step(s2, es[2]);
    var s4 := Step(s3, es[3]);
    var s5 := Step(s4, es[4]);
    var s6 := Step(s5, es[5]);
    var s7 := Step(s6, es[6]);
    var s8 := Step(s7, es[7]);
    FirstClaim(s0);
    SecondClaim(s4);
    ExecFrom(s0, es, 0);
    ExecFrom(s1, es, 1);
    ExecFrom(s2, es, 2);
    ExecFrom(s3, es, 3);
    ExecFrom(s4, es, 4);
    ExecFrom(s5, es, 5);
    ExecFrom(s6, es, 6);
    ExecFrom(s7, es, 7);
    assert es[0..] == es && es[8..] == [];
  }
}
