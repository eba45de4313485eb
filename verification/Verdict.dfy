/** Running the suites of a run: which steps are run, what is counted, and the verdict that follows. */
module Verdict {
  import opened Wrappers
  import opened Json
  import opened ExecutionPlans
  import opened YamlAdapter
  import opened VisualFlows
  import opened VisualCompiler
  import opened VisualFallback
  import opened VisualIdentity
  import opened YamlRoundTrip
  import opened RunRow

  /** A suite of the run: its document, and the stored plan if it has the shape of one. */
  datatype Suite = Suite(id: string, document: Json, storedPlan: Option<Plan>)

  datatype ResultRow = ResultRow(stepId: string, suiteName: string, testName: string, passed: bool)

  /** What running a step comes to. */
  datatype StepOutcome = StepDone(passed: bool) | StepThrows

  /** `aborts(n)` tells whether the nth step is called off before it starts, `run` how it ends. */
  datatype Steps = Steps(aborts: nat -> bool, run: (nat, Step) -> StepOutcome)

  /** The stored plan, or else the document imported again. */
  function ResolvePlan(h: Host, s: Suite): Result<Plan, AdapterError> {
    if s.storedPlan.Some? then Ok(s.storedPlan.value) else Import(h, s.document, Options(Some(s.id), None))
  }

  /** Sequence steps are not run. */
  function Runnable(steps: seq<Step>): seq<Step> {
    if steps == [] then []
    else (if steps[0].config.Sequence? then [] else [steps[0]]) + Runnable(steps[1..])
  }

  predicate AllResolve(h: Host, suites: seq<Suite>) {
    forall i :: 0 <= i < |suites| ==> ResolvePlan(h, suites[i]).Ok?
  }

  /** Every step to be run, suite by suite, each with the name of its suite. */
  function Schedule(h: Host, suites: seq<Suite>): seq<(string, Step)>
    requires AllResolve(h, suites)
  {
    if suites == [] then []
    else
      var n := |suites| - 1;
      var plan := ResolvePlan(h, suites[n]).value;
      Schedule(h, suites[..n]) + Labelled(plan.suiteName, Runnable(plan.steps))
  }

  function Labelled(suiteName: string, steps: seq<Step>): seq<(string, Step)> {
    seq(|steps|, i requires 0 <= i < |steps| => (suiteName, steps[i]))
  }

  // ---------- Which steps are run, by their places in the plans ----------

  /** Step `j` is there and is no sequence. */
  predicate IsTestIndex(steps: seq<Step>, j: nat) {
    j < |steps| && !steps[j].config.Sequence?
  }

  /** `js` are the positions of all of them, in order. */
  ghost predicate AreTestIndices(steps: seq<Step>, js: seq<nat>) {
    && (forall k :: 0 <= k < |js| ==> IsTestIndex(steps, js[k]))
    && (forall j: nat :: IsTestIndex(steps, j) ==> j in js)
    && (forall k, l :: 0 <= k < l < |js| ==> js[k] < js[l])
  }

  /** Step `j` of suite `i` is there and is no sequence. */
  predicate IsTestPlace(h: Host, suites: seq<Suite>, i: nat, j: nat)
    requires AllResolve(h, suites)
  {
    i < |suites| && IsTestIndex(ResolvePlan(h, suites[i]).value.steps, j)
  }

  /** `places` are all of them, suite by suite and in the order of the steps. */
  ghost predicate AreTestPlaces(h: Host, suites: seq<Suite>, places: seq<(nat, nat)>)
    requires AllResolve(h, suites)
  {
    && (forall k :: 0 <= k < |places| ==> IsTestPlace(h, suites, places[k].0, places[k].1))
    && (forall i: nat, j: nat :: IsTestPlace(h, suites, i, j) ==> (i, j) in places)
    && (forall k, l :: 0 <= k < l < |places| ==>
          places[k].0 < places[l].0 || (places[k].0 == places[l].0 && places[k].1 < places[l].1))
  }

  function StepAt(h: Host, suites: seq<Suite>, at: (nat, nat)): Step
    requires AllResolve(h, suites) && IsTestPlace(h, suites, at.0, at.1)
  {
    ResolvePlan(h, suites[at.0]).value.steps[at.1]
  }

  function SuiteNameAt(h: Host, suites: seq<Suite>, at: (nat, nat)): string
    requires AllResolve(h, suites) && IsTestPlace(h, suites, at.0, at.1)
  {
    ResolvePlan(h, suites[at.0]).value.suiteName
  }

  /** One result for each place: what the step there came to. */
  ghost predicate AreResultsAt(h: Host, suites: seq<Suite>, places: seq<(nat, nat)>, w: Steps, rows: seq<ResultRow>)
    requires AllResolve(h, suites) && AreTestPlaces(h, suites, places)
  {
    && |rows| == |places|
    && forall k :: 0 <= k < |places| ==>
         var test := StepAt(h, suites, places[k]);
         && rows[k] == ResultRow(test.id, SuiteNameAt(h, suites, places[k]), test.name, rows[k].passed)
         && !w.aborts(k) && w.run(k, test) == StepDone(rows[k].passed)
  }

  function Later(js: seq<nat>): (r: seq<nat>)
    ensures |r| == |js|
  {
    seq(|js|, k requires 0 <= k < |js| => js[k] + 1)
  }

  /** The first step and the positions of those behind it. */
  function HeadIndex(s: Step): seq<nat> {
    if s.config.Sequence? then [] else [0]
  }

  lemma {:induction false} RunnableIndices(steps: seq<Step>) returns (js: seq<nat>)
    ensures AreTestIndices(steps, js) && |js| == |Runnable(steps)|
    ensures forall k :: 0 <= k < |js| ==> Runnable(steps)[k] == steps[js[k]]
    decreases |steps|
  {
    js := [];
    if steps != [] {
      var rest := RunnableIndices(steps[1..]);
      js := HeadIndex(steps[0]) + Later(rest);
      IndicesExtend(steps, rest);
      RunnableExtends(steps, rest);
      hide Runnable, AreTestIndices, Later, HeadIndex;
    }
  }

  lemma ShiftedAt(steps: seq<Step>, front: seq<Step>, tail: seq<Step>, head: seq<nat>, rest: seq<nat>, k: nat)
    requires steps != [] && |front| == |head| <= 1 && |tail| == |rest| && k < |front| + |tail|
    requires front != [] ==> front == [steps[0]] && head == [0]
    requires forall m :: 0 <= m < |rest| ==> rest[m] < |steps| - 1 && tail[m] == steps[rest[m] + 1]
    ensures (head + Later(rest))[k] < |steps| && (front + tail)[k] == steps[(head + Later(rest))[k]]
  {
    if k >= |front| {
      assert Later(rest)[k - |front|] == rest[k - |front|] + 1;
    }
  }

  lemma RunnableExtends(steps: seq<Step>, rest: seq<nat>)
    requires steps != [] && AreTestIndices(steps[1..], rest) && |rest| == |Runnable(steps[1..])|
    requires forall k :: 0 <= k < |rest| ==> Runnable(steps[1..])[k] == steps[1..][rest[k]]
    ensures var js := HeadIndex(steps[0]) + Later(rest);
            |js| == |Runnable(steps)| && forall k :: 0 <= k < |js| ==> js[k] < |steps| && Runnable(steps)[k] == steps[js[k]]
  {
    var head, front := HeadIndex(steps[0]), if steps[0].config.Sequence? then [] else [steps[0]];
    var tail := Runnable(steps[1..]);
    assert Runnable(steps) == front + tail;
    forall m | 0 <= m < |rest| ensures rest[m] < |steps| - 1 && tail[m] == steps[rest[m] + 1] {
      assert IsTestIndex(steps[1..], rest[m]);
    }
    hide Runnable, AreTestIndices, Later;
    forall k | 0 <= k < |front| + |tail|
      ensures (head + Later(rest))[k] < |steps| && Runnable(steps)[k] == steps[(head + Later(rest))[k]]
    {
      ShiftedAt(steps, front, tail, head, rest, k);
    }
  }

  lemma IndicesExtend(steps: seq<Step>, rest: seq<nat>)
    requires steps != [] && AreTestIndices(steps[1..], rest)
    ensures AreTestIndices(steps, HeadIndex(steps[0]) + Later(rest))
  {
    var head, js := HeadIndex(steps[0]), HeadIndex(steps[0]) + Later(rest);
    forall k | 0 <= k < |js| ensures IsTestIndex(steps, js[k]) {
      if k >= |head| { assert IsTestIndex(steps[1..], rest[k - |head|]); }
    }
    forall j: nat | IsTestIndex(steps, j) ensures j in js {
      if j == 0 {
        assert js[0] == 0;
      } else {
        assert IsTestIndex(steps[1..], j - 1);
        var k :| 0 <= k < |rest| && rest[k] == j - 1;
        assert js[|head| + k] == j;
      }
    }
  }

  lemma {:induction false} SchedulePlaces(h: Host, suites: seq<Suite>) returns (places: seq<(nat, nat)>)
    requires AllResolve(h, suites)
    ensures AreTestPlaces(h, suites, places) && |places| == |Schedule(h, suites)|
    ensures forall k :: 0 <= k < |places| ==>
              Schedule(h, suites)[k] == (SuiteNameAt(h, suites, places[k]), StepAt(h, suites, places[k]))
    decreases |suites|
  {
    places := [];
    if suites != [] {
      var n := |suites| - 1;
      var before := SchedulePlaces(h, suites[..n]);
      var js := RunnableIndices(ResolvePlan(h, suites[n]).value.steps);
      var last := seq(|js|, k requires 0 <= k < |js| => (n, js[k]));
      places := before + last;
      PlacesExtend(h, suites, before, js, places);
      var plan := ResolvePlan(h, suites[n]).value;
      var front, scheduled := Schedule(h, suites[..n]), Labelled(plan.suiteName, Runnable(plan.steps));
      assert Schedule(h, suites) == front + scheduled;
      hide Schedule, AreTestPlaces, AreTestIndices, Runnable;
      forall k | 0 <= k < |places|
        ensures IsTestPlace(h, suites, places[k].0, places[k].1)
        ensures Schedule(h, suites)[k] == (SuiteNameAt(h, suites, places[k]), StepAt(h, suites, places[k]))
      {
        IsPlace(h, suites, places, k);
        if k < |before| { IsPlace(h, suites[..n], before, k); }
      }
    }
  }

  lemma IsPlace(h: Host, suites: seq<Suite>, places: seq<(nat, nat)>, k: nat)
    requires AllResolve(h, suites) && AreTestPlaces(h, suites, places) && k < |places|
    ensures IsTestPlace(h, suites, places[k].0, places[k].1)
  {
  }

  lemma PlacesExtend(h: Host, suites: seq<Suite>, before: seq<(nat, nat)>, js: seq<nat>, places: seq<(nat, nat)>)
    requires suites != [] && AllResolve(h, suites) && AllResolve(h, suites[..|suites| - 1])
    requires AreTestPlaces(h, suites[..|suites| - 1], before)
    requires AreTestIndices(ResolvePlan(h, suites[|suites| - 1]).value.steps, js)
    requires places == before + seq(|js|, k requires 0 <= k < |js| => (|suites| - 1, js[k]))
    ensures AreTestPlaces(h, suites, places)
  {
    var n := |suites| - 1;
    forall k | 0 <= k < |places| ensures IsTestPlace(h, suites, places[k].0, places[k].1) {
      if k < |before| { assert IsTestPlace(h, suites[..n], before[k].0, before[k].1); }
    }
    forall i: nat, j: nat | IsTestPlace(h, suites, i, j) ensures (i, j) in places {
      if i < n {
        assert IsTestPlace(h, suites[..n], i, j);
      } else {
        var k :| 0 <= k < |js| && js[k] == j;
        assert places[|before| + k] == (i, j);
      }
    }
    forall k, l | 0 <= k < l < |places|
      ensures places[k].0 < places[l].0 || (places[k].0 == places[l].0 && places[k].1 < places[l].1)
    {
      if k < |before| { assert IsTestPlace(h, suites[..n], before[k].0, before[k].1); }
    }
  }

  /** From the nth on, one result for each of a plan's steps other than sequences. */
  ghost predicate AreSuiteResults(rows: seq<ResultRow>, n: nat, plan: Plan, js: seq<nat>, w: Steps) {
    && AreTestIndices(plan.steps, js) && |rows| == n + |js|
    && forall k :: 0 <= k < |js| ==> IsResultOf(rows[n + k], n + k, (plan.suiteName, plan.steps[js[k]]), w)
  }

  lemma SuiteResults(rows: seq<ResultRow>, schedule: seq<(string, Step)>, plan: Plan, w: Steps) returns (js: seq<nat>)
    requires AreResults(rows, schedule + Labelled(plan.suiteName, Runnable(plan.steps)), w)
    requires |rows| == |schedule| + |Runnable(plan.steps)|
    ensures AreSuiteResults(rows, |schedule|, plan, js, w)
  {
    js := RunnableIndices(plan.steps);
    var all := schedule + Labelled(plan.suiteName, Runnable(plan.steps));
    assert forall k :: 0 <= k < |js| ==> all[|schedule| + k] == (plan.suiteName, plan.steps[js[k]]);
  }

  lemma ResultsHavePlaces(h: Host, suites: seq<Suite>, w: Steps, rows: seq<ResultRow>) returns (places: seq<(nat, nat)>)
    requires AllResolve(h, suites) && AreResults(rows, Schedule(h, suites), w) && |rows| == |Schedule(h, suites)|
    ensures AreTestPlaces(h, suites, places) && AreResultsAt(h, suites, places, w, rows)
  {
    places := SchedulePlaces(h, suites);
    forall k | 0 <= k < |places| ensures IsResultOf(rows[k], k, Schedule(h, suites)[k], w) {}
  }

  // ---------- Counting ----------

  function PassedCount(rows: seq<ResultRow>): nat {
    if rows == [] then 0 else PassedCount(rows[..|rows| - 1]) + if rows[|rows| - 1].passed then 1 else 0
  }

  /** The result of the nth step, which was neither called off nor threw. */
  predicate IsResultOf(row: ResultRow, n: nat, scheduled: (string, Step), w: Steps) {
    && !w.aborts(n) && w.run(n, scheduled.1).StepDone?
    && row == ResultRow(scheduled.1.id, scheduled.0, scheduled.1.name, w.run(n, scheduled.1).passed)
  }

  /** `rows` are the results of the first `|rows|` scheduled steps, one each and in order. */
  ghost predicate AreResults(rows: seq<ResultRow>, schedule: seq<(string, Step)>, w: Steps) {
    |rows| <= |schedule| && forall i :: 0 <= i < |rows| ==> IsResultOf(rows[i], i, schedule[i], w)
  }

  /** Every step from the nth on is run to its end. */
  ghost predicate AreRun(schedule: seq<(string, Step)>, n: nat, w: Steps) {
    forall i :: n <= i < |schedule| ==> !w.aborts(i) && w.run(i, schedule[i].1).StepDone?
  }

  ghost predicate IsCountOf(stats: Stats, rows: seq<ResultRow>) {
    stats.total == |rows| && stats.passed == PassedCount(rows) && stats.failed == |rows| - PassedCount(rows)
  }

  /** The results end in front of a scheduled step that is called off or throws. */
  ghost predicate StopsIn(rows: seq<ResultRow>, schedule: seq<(string, Step)>, w: Steps) {
    && AreResults(rows, schedule, w) && |rows| < |schedule|
    && (w.aborts(|rows|) || w.run(|rows|, schedule[|rows|].1).StepThrows?)
  }

  /** The results end where running the suites did: at a plan that cannot be resolved, or at a step of a suite. */
  ghost predicate StopsWithin(h: Host, suites: seq<Suite>, w: Steps, rows: seq<ResultRow>) {
    exists i: nat :: i < |suites| && AllResolve(h, suites[..i]) && StopsAt(h, suites, i, w, rows)
  }

  ghost predicate StopsAt(h: Host, suites: seq<Suite>, i: nat, w: Steps, rows: seq<ResultRow>)
    requires i < |suites| && AllResolve(h, suites[..i])
  {
    var before, plan := Schedule(h, suites[..i]), ResolvePlan(h, suites[i]);
    if plan.Err? then AreResults(rows, before, w) && |rows| == |before|
    else |rows| >= |before| && StopsIn(rows, before + Labelled(plan.value.suiteName, Runnable(plan.value.steps)), w)
  }

  /** What the suites come to: no statistics exactly if a plan cannot be resolved, a step throws or is called off. */
  ghost predicate IsOutcome(h: Host, suites: seq<Suite>, w: Steps, stats: Option<Stats>, rows: seq<ResultRow>) {
    && (stats.None? ==> StopsWithin(h, suites, w, rows))
    && (stats.Some? <==> AllResolve(h, suites) && AreRun(Schedule(h, suites), 0, w))
    && (stats.Some? ==>
          && IsCountOf(stats.value, rows)
          && AreResults(rows, Schedule(h, suites), w) && |rows| == |Schedule(h, suites)|
          && exists places :: AreTestPlaces(h, suites, places) && AreResultsAt(h, suites, places, w, rows))
  }

  lemma PassedExtends(rows: seq<ResultRow>, row: ResultRow)
    ensures PassedCount(rows + [row]) == PassedCount(rows) + if row.passed then 1 else 0
  {
    assert (rows + [row])[..|rows|] == rows;
  }

  lemma ResultAdds(rows: seq<ResultRow>, schedule: seq<(string, Step)>, w: Steps, row: ResultRow)
    requires AreResults(rows, schedule, w) && |rows| < |schedule| && IsResultOf(row, |rows|, schedule[|rows|], w)
    ensures AreResults(rows + [row], schedule, w)
  {
  }

  lemma ResultsAreRun(rows: seq<ResultRow>, schedule: seq<(string, Step)>, w: Steps, n: nat)
    requires AreResults(rows, schedule, w) && |rows| == |schedule|
    ensures AreRun(schedule, n, w)
  {
    forall i | n <= i < |schedule| ensures !w.aborts(i) && w.run(i, schedule[i].1).StepDone? {
      assert IsResultOf(rows[i], i, schedule[i], w);
    }
  }

  lemma CountsAdd(stats: Stats, rows: seq<ResultRow>, row: ResultRow)
    requires IsCountOf(stats, rows)
    ensures IsCountOf(Stats(stats.total + 1, stats.passed + (if row.passed then 1 else 0),
                            stats.failed + if row.passed then 0 else 1), rows + [row])
  {
    PassedExtends(rows, row);
  }

  class TestRunner {
    var rows: seq<ResultRow>

    constructor ()
      ensures rows == []
    {
      rows := [];
    }

    /** The steps of one suite, behind those in `schedule`. */
    method ExecuteSuite(plan: Plan, w: Steps, before: Stats, ghost schedule: seq<(string, Step)>)
      returns (stats: Option<Stats>)
      requires AreResults(rows, schedule, w) && IsCountOf(before, rows) && |rows| == |schedule|
      modifies this
      ensures AreResults(rows, schedule + Labelled(plan.suiteName, Runnable(plan.steps)), w)
      ensures stats.Some? <==> AreRun(schedule + Labelled(plan.suiteName, Runnable(plan.steps)), |schedule|, w)
      ensures stats.Some? ==> IsCountOf(stats.value, rows) && |rows| == |schedule| + |Runnable(plan.steps)|
      ensures stats.Some? ==> exists js :: AreSuiteResults(rows, |schedule|, plan, js, w)
      ensures stats.None? ==>
                && |rows| >= |schedule|
                && StopsIn(rows, schedule + Labelled(plan.suiteName, Runnable(plan.steps)), w)
    {
      hide AreSuiteResults;
      var tests := Runnable(plan.steps);
      ghost var all := schedule + Labelled(plan.suiteName, tests);
      var counted := before;
      for i := 0 to |tests|
        invariant |rows| == |schedule| + i && AreResults(rows, all, w) && IsCountOf(counted, rows)
      {
        var test := tests[i];
        assert all[|rows|] == (plan.suiteName, test);
        if w.aborts(|rows|) {
          return None;
        }
        var result := w.run(|rows|, test);
        if result.StepThrows? {
          return None;
        }
        var row := ResultRow(test.id, plan.suiteName, test.name, result.passed);
        ResultAdds(rows, all, w, row);
        CountsAdd(counted, rows, row);
        counted := Stats(counted.total + 1, counted.passed + (if result.passed then 1 else 0),
                         counted.failed + if result.passed then 0 else 1);
        rows := rows + [row];
      }
      ResultsAreRun(rows, all, w, |schedule|);
      ghost var js := SuiteResults(rows, schedule, plan, w);
      return Some(counted);
    }

    /** All suites of the run. */
    method ExecuteSuites(h: Host, suites: seq<Suite>, w: Steps) returns (stats: Option<Stats>)
      requires rows == []
      modifies this
      ensures IsOutcome(h, suites, w, stats, rows)
    {
      var counted := Stats(0, 0, 0);
      for i := 0 to |suites|
        invariant AllResolve(h, suites[..i])
        invariant AreResults(rows, Schedule(h, suites[..i]), w) && |rows| == |Schedule(h, suites[..i])|
        invariant IsCountOf(counted, rows)
      {
        var plan := ResolvePlan(h, suites[i]);
        if plan.Err? {
          assert StopsAt(h, suites, i, w, rows);
          return None;
        }
        ScheduleExtends(h, suites, i);
        if AllResolve(h, suites) { SchedulePrefix(h, suites, i + 1); }
        var after := ExecuteSuite(plan.value, w, counted, Schedule(h, suites[..i]));
        if after.None? {
          assert StopsAt(h, suites, i, w, rows);
          return None;
        }
        counted := after.value;
      }
      assert suites[..|suites|] == suites;
      ResultsAreRun(rows, Schedule(h, suites), w, 0);
      ghost var places := ResultsHavePlaces(h, suites, w, rows);
      return Some(counted);
    }
  }

  lemma {:induction false} SchedulePrefix(h: Host, suites: seq<Suite>, i: nat)
    requires AllResolve(h, suites) && i <= |suites|
    ensures AllResolve(h, suites[..i]) && Schedule(h, suites[..i]) <= Schedule(h, suites)
    decreases |suites|
  {
    if i == |suites| {
      assert suites[..i] == suites;
    } else {
      var n := |suites| - 1;
      SchedulePrefix(h, suites[..n], i);
      assert suites[..n][..i] == suites[..i];
    }
  }

  lemma ScheduleExtends(h: Host, suites: seq<Suite>, i: nat)
    requires i < |suites| && AllResolve(h, suites[..i]) && ResolvePlan(h, suites[i]).Ok?
    ensures AllResolve(h, suites[..i + 1])
    ensures var plan := ResolvePlan(h, suites[i]).value;
            Schedule(h, suites[..i + 1]) == Schedule(h, suites[..i]) + Labelled(plan.suiteName, Runnable(plan.steps))
  {
    var longer := suites[..i + 1];
    assert longer[..i] == suites[..i];
    forall k | 0 <= k < |longer| ensures ResolvePlan(h, longer[k]).Ok? {
      if k < i { assert longer[k] == suites[..i][k]; }
    }
  }

  /** The operation that ends a run nobody cancelled. */
  function FinalOp(stats: Stats): Op {
    if stats.failed > 0 then MarkTestFailed(stats) else MarkPassed(stats)
  }

  lemma {:induction false} PassedIsWithin(rows: seq<ResultRow>)
    ensures PassedCount(rows) <= |rows|
    ensures PassedCount(rows) == |rows| <==> forall i :: 0 <= i < |rows| ==> rows[i].passed
    decreases |rows|
  {
    if rows != [] {
      var front := rows[..|rows| - 1];
      PassedIsWithin(front);
      assert forall i :: 0 <= i < |front| ==> front[i] == rows[i];
    }
  }

  /** The counts add up, and the run passes exactly if every result that was written passed. */
  lemma VerdictFollowsResults(rows: seq<ResultRow>, stats: Stats)
    requires IsCountOf(stats, rows)
    ensures stats.total == stats.passed + stats.failed
    ensures FinalOp(stats).MarkPassed? <==> forall i :: 0 <= i < |rows| ==> rows[i].passed
    ensures FinalOp(stats).MarkTestFailed? <==> exists i :: 0 <= i < |rows| && !rows[i].passed
  {
    PassedIsWithin(rows);
  }

  // ---------- Runs on the fallback ----------

  lemma OptionsLeaveSteps(h: Host, document: Json, one: Options, other: Options)
    requires Import(h, document, one).Ok?
    ensures Import(h, document, other).Ok?
    ensures Import(h, document, other).value.steps == Import(h, document, one).value.steps
    ensures Import(h, document, other).value.suiteName == Import(h, document, one).value.suiteName
  {
  }

  /** The step as it comes back from the document. */
  function FallbackStep(s: Step): Step {
    RepairStep(WithDefaultVersion(s))
  }

  lemma FallbackOfNone()
    ensures FallbackSteps([]) == []
  {
  }

  lemma FallbackUnfolds(steps: seq<Step>)
    requires steps != []
    ensures FallbackSteps(steps) == [FallbackStep(steps[0])] + FallbackSteps(steps[1..])
    ensures FallbackStep(steps[0]).config.Sequence? <==> steps[0].config.Sequence?
  {
    assert WithDefaultVersions(steps)[1..] == WithDefaultVersions(steps[1..]);
  }

  lemma {:induction false} SameRunnable(steps: seq<Step>)
    ensures |Runnable(FallbackSteps(steps))| == |Runnable(steps)|
    ensures forall i :: 0 <= i < |Runnable(steps)| ==>
              Runnable(FallbackSteps(steps))[i] == FallbackStep(Runnable(steps)[i])
    decreases |steps|
  {
    hide FallbackStep, FallbackSteps;
    if steps == [] {
      assert FallbackSteps(steps) == [] by { FallbackOfNone(); }
    } else {
      FallbackUnfolds(steps);
      SameRunnable(steps[1..]);
      var back := FallbackSteps(steps);
      assert back[1..] == FallbackSteps(steps[1..]);
      var head, rest := if steps[0].config.Sequence? then [] else [steps[0]], Runnable(steps[1..]);
      var head', rest' := if back[0].config.Sequence? then [] else [back[0]], Runnable(back[1..]);
      assert Runnable(steps) == head + rest && Runnable(back) == head' + rest';
      hide Runnable;
      forall i | 0 <= i < |Runnable(steps)| ensures Runnable(back)[i] == FallbackStep(Runnable(steps)[i]) {
        assert i >= |head| ==> (head + rest)[i] == rest[i - |head|] && (head' + rest')[i] == rest'[i - |head|];
      }
    }
  }

  /**
   * A compiled flow whose stored plan is unusable runs its steps from the document, one for one and under the same
   * suite name, each as it comes back: itself, exactly if its node keeps the default version and all it expects.
   */
  lemma FallbackRunsSameSteps(h: Host, f: Flow, order: seq<string>, options: Options, id: string)
    requires IsSetting(h, f, order)
    ensures var p := CompiledPlan(h, f, order, options);
            var resolved := ResolvePlan(h, Suite(id, Export(p), None));
            && resolved.Ok? && resolved.value.suiteName == p.suiteName
            && |Runnable(resolved.value.steps)| == |Runnable(p.steps)|
            && (forall i :: 0 <= i < |Runnable(p.steps)| ==>
                  Runnable(resolved.value.steps)[i] == FallbackStep(Runnable(p.steps)[i]))
            && (resolved.value.steps == p.steps <==> HasDefaultVersions(f) && KeepsAllNodes(f))
            && ResolvePlan(h, Suite(id, Export(p), Some(p))) == Ok(p)
  {
    var p := CompiledPlan(h, f, order, options);
    FallbackSucceeds(h, f, order, options);
    OptionsLeaveSteps(h, Export(p), SameOptions(p), Options(Some(id), None));
    SameRunnable(p.steps);
    StepsComeBackIff(h, f, order, options);
  }
}
