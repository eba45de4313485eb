/** What re-importing the export of a compiled visual flow gives back. */
module VisualFallback {
  import opened Wrappers
  import opened Json
  import opened Text
  import opened Sorting
  import opened Graphs
  import opened TopoSort
  import opened ExecutionPlans
  import opened YamlAdapter
  import opened YamlRoundTrip
  import opened VisualFlows
  import opened VisualCompiler

  // ---------- Compiled steps are what import builds, except for the version ----------

  /** A value that came as JSON, or is absent: nothing in it is undefined or an object of another class. */
  predicate IsJsonValue(v: Json) {
    IsOptionalYaml(v) && IsPlain(v)
  }

  predicate IsTransportedRequest(r: FlowRequest) {
    && IsJsonValue(r.headers) && IsJsonValue(r.query) && IsJsonValue(r.jsonBody) && IsJsonValue(r.expectStatus)
    && IsJsonValue(r.jsonContains) && IsJsonValue(r.save)
    && forall i :: 0 <= i < |r.assertions| ==>
         IsJsonValue(r.assertions[i].operator) && IsJsonValue(r.assertions[i].expectedValue)
  }

  /** The flow arrived as JSON. */
  predicate IsTransported(k: NodeKind) {
    match k
    case ApiNode(request) => IsTransportedRequest(request)
    case PollNode(request, _, _, _) => IsTransportedRequest(request)
    case SetVariableNode(_, value, _, _) => IsJsonValue(value)
    case AssertNode(_, _, operator, expected) => IsJsonValue(operator) && IsJsonValue(expected)
    case _ => true
  }

  predicate AreTransported(nodes: seq<FlowNode>) {
    forall n :: n in nodes ==> IsTransported(n.kind)
  }

  function WithDefaultVersion(s: Step): Step {
    s.(version := Str(TypeName(s.config) + "/v1"))
  }

  function WithDefaultVersions(steps: seq<Step>): (r: seq<Step>)
    ensures |r| == |steps| && forall i :: 0 <= i < |steps| ==> r[i] == WithDefaultVersion(steps[i])
  {
    if steps == [] then [] else [WithDefaultVersion(steps[0])] + WithDefaultVersions(steps[1..])
  }

  // ---------- What of a flow survives ----------

  predicate AreKept(assertions: seq<FlowAssertion>) {
    forall i :: 0 <= i < |assertions| ==> assertions[i].operator != Arr([]) && assertions[i].expectedValue != Arr([])
  }

  /** Neither the expected status nor a part of an assertion is something that `cleanObject` drops. */
  predicate KeepsRequest(r: FlowRequest) {
    r.expectStatus != Str("") && r.expectStatus != Arr([]) && AreKept(r.assertions)
  }

  predicate KeepsNode(k: NodeKind) {
    && (k.ApiNode? ==> KeepsRequest(k.request))
    && (k.PollNode? ==> KeepsRequest(k.poll))
  }

  lemma {:induction false} ByPositionPlain(items: seq<Json>, k: string)
    requires IsPlain(Arr(items)) && k in ByPosition(items)
    ensures IsPlain(ByPosition(items)[k])
    decreases |items|
  {
    var n := |items| - 1;
    if k != Decimal(n) {
      assert forall i :: 0 <= i < n ==> items[..n][i] == items[i];
      ByPositionPlain(items[..n], k);
    }
  }

  lemma CleanJsonValue(v: Json)
    requires IsJsonValue(v)
    ensures IsCleanYaml(CleanObject(v)) && IsPlain(CleanObject(v))
  {
    CleanObjectCleans(v);
    if CleanObject(v) != Undefined { CleanObjectKeepsYaml(v); }
    if v.Arr? {
      forall k | k in ByPosition(v.items) ensures IsPlain(ByPosition(v.items)[k]) { ByPositionPlain(v.items, k); }
    }
  }

  lemma {:induction false} CompiledAssertionsAreBuilt(assertions: seq<FlowAssertion>)
    requires forall i :: 0 <= i < |assertions| ==>
               && IsJsonValue(assertions[i].operator) && IsJsonValue(assertions[i].expectedValue)
               && !IsBlank(assertions[i].fieldPath) && IsTruthy(assertions[i].operator)
    ensures forall i :: 0 <= i < |ToAssertions(assertions)| ==> IsBuiltAssertion(ToAssertions(assertions)[i])
    ensures AllSurvive(ToAssertions(assertions)) <==> AreKept(assertions)
    decreases |assertions|
  {
    if assertions != [] {
      var a, rest := assertions[0], assertions[1..];
      var first := Assertion(Trim(a.fieldPath), a.operator, ExpectedValue(a.expectedValue));
      CompiledAssertionsAreBuilt(rest);
      TrimTrims(a.fieldPath);
      hide Trim, IsBlank, IsJsonValue;
      assert ToAssertions(assertions) == [first] + ToAssertions(rest);
      AllSurviveSplits(first, ToAssertions(rest));
      assert AreKept(assertions) <==> AssertionSurvives(first) && AreKept(rest) by {
        assert forall i :: 0 <= i < |rest| ==> rest[i] == assertions[i + 1];
        assert assertions == [a] + rest;
      }
    }
  }

  lemma AllSurviveSplits(first: Assertion, rest: seq<Assertion>)
    ensures AllSurvive([first] + rest) <==> AssertionSurvives(first) && AllSurvive(rest)
  {
    var all := [first] + rest;
    assert all[0] == first && forall i :: 0 <= i < |rest| ==> rest[i] == all[i + 1];
    if AllSurvive(all) {
      forall i | 0 <= i < |rest| ensures AssertionSurvives(rest[i]) { assert AssertionSurvives(all[i + 1]); }
      assert AssertionSurvives(all[0]);
    }
  }

  lemma CompiledExpectationIsBuilt(r: FlowRequest)
    requires IsValidRequest(r) && IsTransportedRequest(r)
    ensures ToExpectation(r).Some? ==> IsBuiltExpectation(ToExpectation(r).value)
    ensures ExpectationSurvives(ToExpectation(r)) <==> KeepsRequest(r)
  {
    CompiledAssertionsAreBuilt(r.assertions);
  }

  lemma CompiledRequestIsBuilt(h: Host, r: FlowRequest)
    requires TrustedHost(h) && IsValidRequest(r) && IsTransportedRequest(r)
    ensures IsBuiltRequest(h, ToRequest(h, r)) && IsPlain(ToRequest(h, r).save)
    ensures RequestSurvives(ToRequest(h, r)) <==> KeepsRequest(r)
  {
    TrimTrims(r.verb);
    TrimTrims(r.path);
    CleanJsonValue(r.headers);
    CleanJsonValue(r.query);
    CleanJsonValue(r.save);
    CompiledExpectationIsBuilt(r);
  }

  lemma TrimmedIsOptionalName(s: Option<string>)
    ensures IsOptionalName(OptionalTrimmed(s))
  {
    if s.Some? { TrimTrims(s.value); }
  }

  lemma CompiledConfigIsBuilt(h: Host, k: NodeKind)
    requires TrustedHost(h) && IsValidKind(k) && IsTransported(k)
    ensures IsBuiltConfig(h, ToConfig(h, k)) && TypeName(ToConfig(h, k)) == KindName(k)
    ensures ConfigSurvives(ToConfig(h, k)) <==> KeepsNode(k)
    ensures IsPlain(SaveOf(ToConfig(h, k))) && (k.SetVariableNode? ==> IsPlain(k.value))
  {
    match k
    case ApiNode(request) => CompiledRequestIsBuilt(h, request);
    case WaitNode(_) =>
    case PollNode(request, _, _, message) =>
      CompiledRequestIsBuilt(h, request);
      TrimmedIsOptionalName(message);
    case SetVariableNode(name, _, from, path) =>
      TrimTrims(name);
      TrimmedIsOptionalName(from);
      TrimmedIsOptionalName(path);
    case AssertNode(source, fieldPath, _, _) =>
      TrimTrims(fieldPath);
      TrimmedIsOptionalName(source);
  }

  lemma CompiledStepIsBuilt(h: Host, n: FlowNode)
    requires TrustedHost(h) && IsValidNode(n) && IsTransported(n.kind)
    ensures var s := NormalizeStep(ToStep(h, MigrateNode(n)));
            && IsBuiltStep(h, WithDefaultVersion(s))
            && (ConfigSurvives(s.config) <==> KeepsNode(n.kind))
            && s.id == Trim(n.id) && s.config == ToConfig(h, n.kind)
            && s.version == Coalesce(n.version, Str(TypeName(s.config) + "/v1"))
  {
    CompiledConfigIsBuilt(h, n.kind);
    TrimTrims(n.id);
    TrimTrims(n.name);
    TrimTrims(Trim(n.name));
  }

  lemma {:induction false} NormalizedStepAt(steps: seq<Step>, i: nat)
    requires i < |steps|
    ensures |NormalizeSteps(steps)| == |steps| && NormalizeSteps(steps)[i] == NormalizeStep(steps[i])
    decreases |steps|
  {
    NormalizedStepsLength(steps);
    if i > 0 { NormalizedStepAt(steps[1..], i - 1); }
  }

  lemma {:induction false} NormalizedStepsLength(steps: seq<Step>)
    ensures |NormalizeSteps(steps)| == |steps|
    decreases |steps|
  {
    if steps != [] { NormalizedStepsLength(steps[1..]); }
  }

  /** The flow, its order and what is trusted: the setting of every result below. */
  ghost predicate IsSetting(h: Host, f: Flow, order: seq<string>) {
    && TrustedHost(h) && IsValidFlow(f) && IsSupported(f.nodes) && AreTransported(f.nodes)
    && IsTopological(order, IdsOf(f.nodes), f.edges)
    && (forall x :: x in order ==> x in IdsOf(f.nodes))
  }

  function NodeAt(f: Flow, order: seq<string>, i: nat): FlowNode
    requires i < |order| && forall x :: x in order ==> x in IdsOf(f.nodes)
  {
    NodeWithId(f.nodes, order[i]).value
  }

  lemma StepOfPlan(h: Host, f: Flow, order: seq<string>, options: Options, i: nat)
    requires IsSetting(h, f, order) && i < |order|
    ensures var p := CompiledPlan(h, f, order, options);
            && |p.steps| == |order|
            && p.steps[i] == NormalizeStep(ToStep(h, MigrateNode(NodeAt(f, order, i))))
            && IsBuiltStep(h, WithDefaultVersion(p.steps[i]))
            && (ConfigSurvives(p.steps[i].config) <==> KeepsNode(NodeAt(f, order, i).kind))
            && p.steps[i].id == Trim(order[i]) && p.steps[i].config == ToConfig(h, NodeAt(f, order, i).kind)
            && p.steps[i].version == Coalesce(NodeAt(f, order, i).version, Str(TypeName(p.steps[i].config) + "/v1"))
  {
    var n := NodeAt(f, order, i);
    assert order[i] in order;
    assert n in f.nodes;
    NormalizedStepAt(StepsInOrder(h, f.nodes, order), i);
    StepInOrder(h, f.nodes, order, i);
    CompiledStepIsBuilt(h, n);
  }

  lemma PlanLength(h: Host, f: Flow, order: seq<string>, options: Options)
    requires IsSetting(h, f, order)
    ensures |CompiledPlan(h, f, order, options).steps| == |order|
  {
    NormalizedStepsLength(StepsInOrder(h, f.nodes, order));
  }

  lemma CompiledStepsAreBuilt(h: Host, f: Flow, order: seq<string>, options: Options)
    requires IsSetting(h, f, order)
    ensures AreBuiltSteps(h, WithDefaultVersions(CompiledPlan(h, f, order, options).steps))
  {
    var steps := WithDefaultVersions(CompiledPlan(h, f, order, options).steps);
    PlanLength(h, f, order, options);
    forall i | 0 <= i < |steps| ensures IsBuiltStep(h, steps[i]) {
      StepOfPlan(h, f, order, options, i);
    }
  }

  lemma {:induction false} ExportIgnoresVersions(steps: seq<Step>)
    ensures ExportSteps(WithDefaultVersions(steps)) == ExportSteps(steps)
    decreases |steps|
  {
    if steps != [] {
      ExportIgnoresVersions(steps[1..]);
      assert WithDefaultVersions(steps)[1..] == WithDefaultVersions(steps[1..]);
    }
  }

  /** The steps that come back: with default versions, and with what export loses filled in again. */
  function FallbackSteps(steps: seq<Step>): seq<Step> {
    RepairSteps(WithDefaultVersions(steps))
  }

  /** The plan that comes back from the document of a compiled flow. */
  function Fallback(h: Host, p: Plan): Plan {
    var steps := FallbackSteps(p.steps);
    p.(steps := steps, dependencies := LinearDependencies(steps),
       variables := Sort(ByComposite(h), CollectVariables(h, steps)))
  }

  lemma ExportedSteps(h: Host, steps: seq<Step>, defaulted: seq<Step>)
    requires AreBuiltSteps(h, defaulted) && ExportSteps(defaulted) == ExportSteps(steps)
    ensures Dump(Arr(ExportSteps(steps))).Arr?
    ensures ImportSteps(h, Dump(Arr(ExportSteps(steps))).items, 0) == Ok(RepairSteps(defaulted))
  {
    ExportedDocuments(h, defaulted);
    ReimportedSteps(h, defaulted, Dump(Arr(ExportSteps(steps))).items, 0);
  }

  lemma CompiledPlanIsNamed(h: Host, f: Flow, order: seq<string>, options: Options)
    requires IsSetting(h, f, order)
    ensures var p := CompiledPlan(h, f, order, options);
            p.suiteRevisionId != "" && IsName(p.suiteName) && p.timeoutMs > 0.0
  {
    TrimTrims(f.suiteName);
  }

  lemma DefaultedComesBack(h: Host, p: Plan)
    requires AreBuiltSteps(h, WithDefaultVersions(p.steps))
    requires ExportSteps(WithDefaultVersions(p.steps)) == ExportSteps(p.steps)
    requires p.suiteRevisionId != "" && IsName(p.suiteName) && p.timeoutMs > 0.0
    ensures Import(h, Export(p), SameOptions(p)) == Ok(Fallback(h, p))
  {
    var defaulted := WithDefaultVersions(p.steps);
    ExportedSteps(h, p.steps, defaulted);
    RepairBuiltSteps(h, defaulted);
    ExportedPlanFields(p);
    TrimTrims(p.suiteName);
    ImportFromParts(h, Export(p), SameOptions(p), Dump(Arr(ExportSteps(p.steps))).items, RepairSteps(defaulted),
                    p.suiteName);
  }

  /** The fallback never fails: the steps come back with default versions, repaired, and in one linear order. */
  lemma FallbackSucceeds(h: Host, f: Flow, order: seq<string>, options: Options)
    requires IsSetting(h, f, order)
    ensures var p := CompiledPlan(h, f, order, options);
            Import(h, Export(p), SameOptions(p)) == Ok(Fallback(h, p))
  {
    var p := CompiledPlan(h, f, order, options);
    CompiledStepsAreBuilt(h, f, order, options);
    ExportIgnoresVersions(p.steps);
    CompiledPlanIsNamed(h, f, order, options);
    DefaultedComesBack(h, p);
  }
}
