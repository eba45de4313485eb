/** Compiling a visual flow to an execution plan and to the document exported beside it. */
module VisualCompiler {
  import opened Wrappers
  import opened Json
  import opened Text
  import opened Sorting
  import opened Graphs
  import opened TopoSort
  import opened ExecutionPlans
  import opened YamlAdapter
  import opened VisualFlows

  datatype Compiled = Compiled(plan: Plan, document: Json, testsCount: nat)

  // ---------- Steps ----------

  function OptionalTrimmed(s: Option<string>): Option<string> {
    if s.Some? then OptionalText(Trim(s.value)) else None
  }

  /** An expected value that is absent or blank is left out. */
  function ExpectedValue(v: Json): Json {
    if v == Str("") then Undefined else v
  }

  function ToAssertions(assertions: seq<FlowAssertion>): seq<Assertion> {
    if assertions == [] then []
    else
      var a := assertions[0];
      var rest := ToAssertions(assertions[1..]);
      if IsBlank(a.fieldPath) || !IsTruthy(a.operator) then rest
      else [Assertion(Trim(a.fieldPath), a.operator, ExpectedValue(a.expectedValue))] + rest
  }

  function ToExpectation(r: FlowRequest): Option<Expectation> {
    CleanExpectation(Expectation(Coalesce(r.expectStatus, Num(Finite(200.0))), r.jsonContains, ToAssertions(r.assertions)))
  }

  function ToRequest(h: Host, r: FlowRequest): Request {
    Request(h.upper(Trim(r.verb)), Trim(r.path), CleanObject(r.headers), CleanObject(r.query), KeptOrUndefined(r.jsonBody),
            ToExpectation(r),
            CleanObject(r.save))
  }

  function Milliseconds(seconds: Number): real {
    if seconds.Finite? then seconds.value * 1000.0 else 0.0
  }

  predicate IsSupported(nodes: seq<FlowNode>) {
    forall n :: n in nodes ==> !n.kind.OtherNode?
  }

  function ToConfig(h: Host, k: NodeKind): Config
    requires !k.OtherNode?
  {
    match k
    case ApiNode(request) => ApiRequest(ToRequest(h, request))
    case WaitNode(durationMs) => Wait(if durationMs.Finite? then durationMs.value else 0.0)
    case PollNode(request, timeout, interval, message) =>
      PollUntil(ToRequest(h, request), Milliseconds(timeout), Milliseconds(interval), OptionalTrimmed(message))
    case SetVariableNode(name, value, from, path) =>
      SetVariable(Trim(name), value, OptionalTrimmed(from), OptionalTrimmed(path))
    case AssertNode(source, fieldPath, operator, expected) =>
      Assert(OptionalTrimmed(source), Trim(fieldPath), operator, ExpectedValue(expected))
  }

  /** A migrated node as a step; its numbers are normalised here, its id not yet. */
  function ToStep(h: Host, n: FlowNode): Step
    requires !n.kind.OtherNode?
  {
    var config := ToConfig(h, n.kind);
    var timeoutMs := if config.PollUntil? then Num(Finite(config.timeoutMs))
                     else Coalesce(n.timeoutMs, Num(Finite(DEFAULT_STEP_TIMEOUT_MS)));
    Step(n.id, Coalesce(n.version, Str(TypeName(config) + "/v1")), Trim(n.name), config,
         PositiveNumber(timeoutMs, DEFAULT_STEP_TIMEOUT_MS), ImportRetry(Coalesce(n.retryPolicy, PlainRetry())),
         n.continueOnFailure)
  }

  function NodeWithId(nodes: seq<FlowNode>, id: string): (r: Option<FlowNode>)
    ensures r.Some? <==> id in IdsOf(nodes)
    ensures r.Some? ==> r.value in nodes && r.value.id == id
  {
    if nodes == [] then None
    else if nodes[0].id == id then Some(nodes[0])
    else NodeWithId(nodes[1..], id)
  }

  function StepsInOrder(h: Host, nodes: seq<FlowNode>, order: seq<string>): (r: seq<Step>)
    requires IsSupported(nodes) && forall x :: x in order ==> x in IdsOf(nodes)
    ensures |r| == |order|
  {
    if order == [] then []
    else
      assert order[0] in order && forall x :: x in order[1..] ==> x in order;
      [ToStep(h, MigrateNode(NodeWithId(nodes, order[0]).value))] + StepsInOrder(h, nodes, order[1..])
  }

  lemma {:induction false} StepInOrder(h: Host, nodes: seq<FlowNode>, order: seq<string>, i: nat)
    requires IsSupported(nodes) && i < |order| && forall x :: x in order ==> x in IdsOf(nodes)
    ensures StepsInOrder(h, nodes, order)[i] == ToStep(h, MigrateNode(NodeWithId(nodes, order[i]).value))
    decreases i
  {
    hide ToStep, MigrateNode, NodeWithId;
    if i > 0 {
      assert forall x :: x in order[1..] ==> x in order;
      StepInOrder(h, nodes, order[1..], i - 1);
    }
  }

  // ---------- Dependencies ----------

  /** For every step of the order its predecessors, sorted. */
  function DependencyRecord(order: seq<string>, edges: seq<Edge>): map<string, seq<string>> {
    map x | x in order :: Sort(CodeUnitLe, Sources(edges, x))
  }

  lemma SameSort(s: seq<string>, t: seq<string>)
    requires multiset(s) == multiset(t)
    ensures Sort(CodeUnitLe, s) == Sort(CodeUnitLe, t)
  {
    CodeUnitIsTotalOrder();
    SortSorts(CodeUnitLe, s);
    SortSorts(CodeUnitLe, t);
    SortPermutes(CodeUnitLe, s);
    SortPermutes(CodeUnitLe, t);
    SortedIsUnique(CodeUnitLe, Sort(CodeUnitLe, s), Sort(CodeUnitLe, t));
  }

  /** Appending to a sorted list and sorting again is sorting once. */
  lemma ResortingIsSorting(s: seq<string>, x: string)
    ensures Sort(CodeUnitLe, Sort(CodeUnitLe, s) + [x]) == Sort(CodeUnitLe, s + [x])
  {
    SortPermutes(CodeUnitLe, s);
    SameSort(Sort(CodeUnitLe, s) + [x], s + [x]);
  }

  lemma SortingTwiceIsOnce(s: seq<string>)
    ensures Sort(CodeUnitLe, Sort(CodeUnitLe, s)) == Sort(CodeUnitLe, s)
  {
    SortPermutes(CodeUnitLe, s);
    SameSort(Sort(CodeUnitLe, s), s);
  }

  lemma SourcesExtend(edges: seq<Edge>, e: Edge, x: string)
    ensures Sources(edges + [e], x) == Sources(edges, x) + if e.target == x then [e.source] else []
  {
    var longer := edges + [e];
    assert longer[..|longer| - 1] == edges && longer[|longer| - 1] == e;
  }

  lemma EntryExtends(edges: seq<Edge>, e: Edge, x: string)
    ensures Sort(CodeUnitLe, Sources(edges + [e], x)) ==
            if e.target == x then Sort(CodeUnitLe, Sort(CodeUnitLe, Sources(edges, x)) + [e.source])
            else Sort(CodeUnitLe, Sources(edges, x))
  {
    SourcesExtend(edges, e, x);
    if e.target == x {
      ResortingIsSorting(Sources(edges, x), e.source);
    } else {
      assert Sources(edges, x) + [] == Sources(edges, x);
    }
  }

  /** Every entry of `d` lists the predecessors of its step, sorted. */
  ghost predicate IsRecord(d: map<string, seq<string>>, edges: seq<Edge>) {
    forall x {:trigger d[x]} :: x in d ==> d[x] == Sort(CodeUnitLe, Sources(edges, x))
  }

  lemma EntryOfExtended(d: map<string, seq<string>>, edges: seq<Edge>, e: Edge, entry: seq<string>, x: string)
    requires x in d && d[x] == Sort(CodeUnitLe, Sources(edges, x))
    requires e.target in d && entry == Sort(CodeUnitLe, d[e.target] + [e.source])
    ensures d[e.target := entry][x] == Sort(CodeUnitLe, Sources(edges + [e], x))
  {
    EntryExtends(edges, e, x);
  }

  lemma RecordExtends(d: map<string, seq<string>>, edges: seq<Edge>, e: Edge, entry: seq<string>)
    requires IsRecord(d, edges) && e.target in d && entry == Sort(CodeUnitLe, d[e.target] + [e.source])
    ensures IsRecord(d[e.target := entry], edges + [e])
  {
    forall x | x in d ensures d[e.target := entry][x] == Sort(CodeUnitLe, Sources(edges + [e], x)) {
      EntryOfExtended(d, edges, e, entry, x);
    }
  }

  lemma RecordIsUnique(d: map<string, seq<string>>, order: seq<string>, edges: seq<Edge>)
    requires d.Keys == Members(order) && IsRecord(d, edges)
    ensures d == DependencyRecord(order, edges)
  {
  }

  method ToDependencyRecord(order: seq<string>, edges: seq<Edge>) returns (dependencies: map<string, seq<string>>)
    requires forall i :: 0 <= i < |edges| ==> edges[i].target in order
    ensures dependencies == DependencyRecord(order, edges)
  {
    dependencies := map x | x in order :: [];
    for i := 0 to |edges|
      invariant dependencies.Keys == Members(order) && IsRecord(dependencies, edges[..i])
    {
      var e := edges[i];
      var entry := Sort(CodeUnitLe, dependencies[e.target] + [e.source]);
      assert edges[..i + 1] == edges[..i] + [e];
      RecordExtends(dependencies, edges[..i], e, entry);
      dependencies := dependencies[e.target := entry];
    }
    assert edges[..|edges|] == edges;
    RecordIsUnique(dependencies, order, edges);
  }

  // ---------- The compiler ----------

  function CompiledPlan(h: Host, f: Flow, order: seq<string>, options: Options): Plan
    requires IsSupported(f.nodes) && forall x :: x in order ==> x in IdsOf(f.nodes)
  {
    var steps := StepsInOrder(h, f.nodes, order);
    NormalizePlan(h, RevisionOf(options), Trim(f.suiteName), steps, DependencyRecord(order, f.edges),
                  Sort(ByName(h), AllVariables(h, steps)),
                  Num(options.timeoutMs.GetOr(Finite(DEFAULT_PLAN_TIMEOUT_MS))))
  }

  /** The order a valid flow without cycles is compiled in. */
  ghost predicate IsCompileOrder(h: Host, f: Flow, order: seq<string>) {
    && IsTopological(order, IdsOf(f.nodes), f.edges)
    && PicksLeast(order, f.edges, h.collate)
  }

  lemma OrderMembers(order: seq<string>, ids: seq<string>, edges: seq<Edge>)
    requires WellFormed(ids, edges) && IsTopological(order, ids, edges)
    ensures |order| == |ids|
    ensures forall x :: x in order <==> x in ids
    ensures forall e :: e in edges ==> e.source in order && e.target in order
  {
    MembersSize(order);
    MembersSize(ids);
    forall x ensures x in order <==> x in ids {
      assert x in Members(order) <==> x in Members(ids);
    }
  }

  lemma ValidIsSupported(f: Flow)
    requires AreValid(f.nodes, |f.nodes|)
    ensures IsSupported(f.nodes)
  {
  }

  /** A flow compiles exactly if it is valid and has no cycle; the plan follows the least topological order. */
  method CompileVisual(h: Host, f: Flow, options: Options)
    returns (result: Result<Compiled, Problem>, ghost order: seq<string>)
    requires IsPreorder(h.collate)
    ensures result.Ok? <==> IsValidFlow(f) && !HasCycle(f.edges)
    ensures result.Err? ==> IsProblemOf(result.error, f)
    ensures result.Ok? ==>
              && IsCompileOrder(h, f, order)
              && IsSupported(f.nodes) && (forall x :: x in order ==> x in IdsOf(f.nodes))
              && result.value.plan == CompiledPlan(h, f, order, options)
              && result.value.document == Export(result.value.plan)
              && result.value.testsCount == |f.nodes|
  {
    hide Outcome, LexLe, ToStep, Export, NormalizePlan, AllVariables;
    order := [];
    var problem := ValidateFlow(f);
    if problem.Some? {
      return Err(problem.value), [];
    }
    var ids := IdsOf(f.nodes);
    var sorted := SortNodes(ids, f.edges, h.collate);
    if sorted.Err? {
      return Err(CyclicFlow), [];
    }
    OrderMembers(sorted.value, ids, f.edges);
    ValidIsSupported(f);
    var steps := StepsInOrder(h, f.nodes, sorted.value);
    var dependencies := ToDependencyRecord(sorted.value, f.edges);
    var plan := NormalizePlan(h, RevisionOf(options), Trim(f.suiteName), steps, dependencies,
                              Sort(ByName(h), AllVariables(h, steps)),
                              Num(options.timeoutMs.GetOr(Finite(DEFAULT_PLAN_TIMEOUT_MS))));
    return Ok(Compiled(plan, Export(plan), |steps|)), sorted.value;
  }
}
