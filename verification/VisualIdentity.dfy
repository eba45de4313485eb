/** When a compiled flow comes back from its own document unchanged. */
module VisualIdentity {
  import opened Wrappers
  import opened Json
  import opened Text
  import opened Sorting
  import opened Graphs
  import opened TopoSort
  import opened ExecutionPlans
  import opened YamlAdapter
  import opened YamlRoundTrip
  import opened VisualFlows
  import opened VisualCompiler
  import opened VisualFallback
  import opened VisualDependencies

  predicate HasDefaultVersion(n: FlowNode) {
    IsNullish(n.version) || n.version == Str(KindName(n.kind) + "/v1")
  }

  predicate HasDefaultVersions(f: Flow) {
    forall n :: n in f.nodes ==> HasDefaultVersion(n)
  }

  predicate NamesEveryVariable(p: Plan) {
    forall v :: v in p.variables ==> !IsBlank(v.name)
  }

  // ---------- Steps ----------

  lemma NodeOfId(f: Flow, m: FlowNode, n: FlowNode)
    requires Distinct(IdsOf(f.nodes)) && m in f.nodes && n in f.nodes && m.id == n.id
    ensures m == n
  {
    var j :| 0 <= j < |f.nodes| && f.nodes[j] == n;
    var k :| 0 <= k < |f.nodes| && f.nodes[k] == m;
    assert IdsOf(f.nodes)[j] == IdsOf(f.nodes)[k];
  }

  lemma NodeHasPlace(f: Flow, order: seq<string>, n: FlowNode) returns (i: nat)
    requires WellFormed(IdsOf(f.nodes), f.edges) && IsTopological(order, IdsOf(f.nodes), f.edges) && n in f.nodes
    ensures forall x :: x in order ==> x in IdsOf(f.nodes)
    ensures i < |order| && NodeAt(f, order, i) == n
  {
    var j :| 0 <= j < |f.nodes| && f.nodes[j] == n;
    assert IdsOf(f.nodes)[j] == n.id;
    OrderMembers(order, IdsOf(f.nodes), f.edges);
    hide IsTopological;
    assert n.id in order;
    i :| 0 <= i < |order| && order[i] == n.id;
    hide WellFormed;
    NodeOfId(f, NodeAt(f, order, i), n);
  }

  lemma CompiledStepComesBackIff(h: Host, n: FlowNode)
    requires TrustedHost(h) && IsValidNode(n) && IsTransported(n.kind)
    ensures var s := NormalizeStep(ToStep(h, MigrateNode(n)));
            RepairStep(WithDefaultVersion(s)) == s <==> HasDefaultVersion(n) && KeepsNode(n.kind)
  {
    var s := NormalizeStep(ToStep(h, MigrateNode(n)));
    CompiledConfigIsBuilt(h, n.kind);
    CompiledStepIsBuilt(h, n);
    StepSurvivesIff(h, WithDefaultVersion(s));
    ChangesAreApart(s);
  }

  lemma ChangesAreApart(s: Step)
    ensures RepairStep(WithDefaultVersion(s)) == s <==>
              WithDefaultVersion(s) == s && RepairStep(WithDefaultVersion(s)) == WithDefaultVersion(s)
  {
  }

  lemma StepComesBackIff(h: Host, f: Flow, order: seq<string>, options: Options, i: nat)
    requires IsSetting(h, f, order) && i < |order|
    ensures var steps := CompiledPlan(h, f, order, options).steps;
            && i < |steps| == |FallbackSteps(steps)|
            && (FallbackSteps(steps)[i] == steps[i] <==>
                  HasDefaultVersion(NodeAt(f, order, i)) && KeepsNode(NodeAt(f, order, i).kind))
  {
    StepOfPlan(h, f, order, options, i);
    assert order[i] in order;
    CompiledStepComesBackIff(h, NodeAt(f, order, i));
    RepairedStepAt(WithDefaultVersions(CompiledPlan(h, f, order, options).steps), i);
  }

  predicate KeepsAllNodes(f: Flow) {
    forall n :: n in f.nodes ==> KeepsNode(n.kind)
  }

  /**
   * The steps come back unchanged exactly if no node carries a version of its own and no request has an expected
   * status or a part of an assertion that `cleanObject` drops.
   */
  lemma StepsComeBackIff(h: Host, f: Flow, order: seq<string>, options: Options)
    requires IsSetting(h, f, order)
    ensures var p := CompiledPlan(h, f, order, options);
            Fallback(h, p).steps == p.steps <==> HasDefaultVersions(f) && KeepsAllNodes(f)
  {
    var steps := CompiledPlan(h, f, order, options).steps;
    PlanLength(h, f, order, options);
    FallbackKeepsIds(steps);
    if FallbackSteps(steps) == steps {
      forall n | n in f.nodes ensures HasDefaultVersion(n) && KeepsNode(n.kind) {
        var i := NodeHasPlace(f, order, n);
        StepComesBackIff(h, f, order, options, i);
      }
    }
    if HasDefaultVersions(f) && KeepsAllNodes(f) {
      forall i | 0 <= i < |steps| ensures FallbackSteps(steps)[i] == steps[i] {
        StepComesBackIff(h, f, order, options, i);
        assert order[i] in order;
      }
    }
  }

  // ---------- Dependencies ----------

  lemma ShortIsSorted(s: seq<string>)
    requires |s| <= 1
    ensures Sort(CodeUnitLe, s) == s
  {
    if s != [] { assert Sort(CodeUnitLe, s[1..]) == []; }
  }

  ghost predicate IsRecorded(d: map<string, seq<string>>, order: seq<string>, edges: seq<Edge>) {
    forall i :: 0 <= i < |order| ==> order[i] in d && d[order[i]] == Sources(edges, order[i])
  }

  lemma RecordedSources(order: seq<string>, f: Flow)
    requires IsUnbranchedOrder(order, f)
    ensures IsRecorded(DependencyRecord(order, f.edges), order, f.edges)
  {
    OrderMembers(order, IdsOf(f.nodes), f.edges);
    forall i | 0 <= i < |order| ensures |Sources(f.edges, order[i])| <= 1 { assert order[i] in order; }
    ShortSourcesRecorded(order, f.edges);
  }

  lemma ShortSourcesRecorded(order: seq<string>, edges: seq<Edge>)
    requires forall i :: 0 <= i < |order| ==> |Sources(edges, order[i])| <= 1
    ensures IsRecorded(DependencyRecord(order, edges), order, edges)
  {
    forall i | 0 <= i < |order|
      ensures order[i] in DependencyRecord(order, edges)
      ensures DependencyRecord(order, edges)[order[i]] == Sources(edges, order[i])
    {
      assert order[i] in order;
      ShortIsSorted(Sources(edges, order[i]));
    }
  }

  lemma AgreeIffChain(linear: map<string, seq<string>>, record: map<string, seq<string>>,
                      order: seq<string>, edges: seq<Edge>)
    requires linear.Keys == record.Keys && forall x :: x in linear ==> x in order
    requires IsLinear(linear, order) && IsRecorded(record, order, edges)
    ensures linear == record <==> IsChain(order, edges)
  {
    if IsChain(order, edges) {
      forall x | x in linear ensures linear[x] == record[x] {
        var i :| 0 <= i < |order| && order[i] == x;
        assert record[order[i]] == Sources(edges, order[i]);
        assert linear[order[i]] == if i == 0 then [] else [order[i - 1]];
        assert Sources(edges, order[i]) == if i == 0 then [] else [order[i - 1]];
      }
    }
    if linear == record {
      forall i | 0 <= i < |order| ensures Sources(edges, order[i]) == if i == 0 then [] else [order[i - 1]] {
        assert record[order[i]] == Sources(edges, order[i]);
      }
    }
  }

  lemma SameKeys(steps: seq<Step>, order: seq<string>, edges: seq<Edge>)
    requires HasIds(steps, order)
    ensures LinearDependencies(steps).Keys == DependencyRecord(order, edges).Keys
    ensures forall x :: x in LinearDependencies(steps) ==> x in order
  {
    forall x ensures x in LinearDependencies(steps) <==> x in order {
      LinearKeys(steps, x);
      if x in order {
        var i :| 0 <= i < |order| && order[i] == x;
        assert steps[i].id == x;
      }
    }
  }

  lemma LinearIsRecordIff(steps: seq<Step>, order: seq<string>, f: Flow)
    requires IsUnbranchedOrder(order, f) && HasIds(steps, order) && order != []
    ensures LinearDependencies(steps) == DependencyRecord(order, f.edges) <==> |f.edges| == |f.nodes| - 1
  {
    LinearIsLinear(steps, order);
    RecordedSources(order, f);
    SameKeys(steps, order, f.edges);
    AgreeIffChain(LinearDependencies(steps), DependencyRecord(order, f.edges), order, f.edges);
    ChainIffEdgeCount(order, f);
  }

  ghost predicate HaveTrimmedIds(steps: seq<Step>, order: seq<string>) {
    |steps| == |order| && forall i :: 0 <= i < |order| ==> steps[i].id == Trim(order[i])
  }

  lemma UntrimmedIdIsLost(steps: seq<Step>, order: seq<string>, edges: seq<Edge>, x: string)
    requires HaveTrimmedIds(steps, order) && x in order && !IsTrimmed(x)
    ensures LinearDependencies(steps) != DependencyRecord(order, edges)
  {
    assert x in DependencyRecord(order, edges);
    LinearKeys(steps, x);
    forall i | 0 <= i < |order| ensures steps[i].id != x { TrimTrims(order[i]); }
  }

  lemma SettingIsUnbranched(h: Host, f: Flow, order: seq<string>)
    requires IsSetting(h, f, order)
    ensures IsUnbranchedOrder(order, f) && order != []
  {
    OrderMembers(order, IdsOf(f.nodes), f.edges);
  }

  lemma FallbackIds(h: Host, f: Flow, order: seq<string>, options: Options)
    requires IsSetting(h, f, order)
    ensures HaveTrimmedIds(Fallback(h, CompiledPlan(h, f, order, options)).steps, order)
  {
    PlanLength(h, f, order, options);
    var p := CompiledPlan(h, f, order, options);
    FallbackKeepsIds(p.steps);
    forall i | 0 <= i < |order| ensures Fallback(h, p).steps[i].id == Trim(order[i]) {
      StepOfPlan(h, f, order, options, i);
    }
  }

  lemma TrimmedIdsAreOrdered(f: Flow, order: seq<string>)
    requires IsUnbranchedOrder(order, f)
    ensures HasTrimmedIds(f) <==> forall i :: 0 <= i < |order| ==> IsTrimmed(order[i])
  {
    OrderMembers(order, IdsOf(f.nodes), f.edges);
    if HasTrimmedIds(f) {
      forall i | 0 <= i < |order| ensures IsTrimmed(order[i]) {
        assert order[i] in order;
        var k :| 0 <= k < |f.nodes| && IdsOf(f.nodes)[k] == order[i];
        assert f.nodes[k] in f.nodes;
      }
    }
    if forall i :: 0 <= i < |order| ==> IsTrimmed(order[i]) {
      forall n | n in f.nodes ensures IsTrimmed(n.id) {
        var i := NodeHasPlace(f, order, n);
        assert order[i] == n.id;
      }
    }
  }

  lemma IdsComeBackIff(steps: seq<Step>, order: seq<string>, f: Flow)
    requires IsUnbranchedOrder(order, f) && order != [] && HaveTrimmedIds(steps, order)
    ensures LinearDependencies(steps) == DependencyRecord(order, f.edges)
       <==> HasTrimmedIds(f) && |f.edges| == |f.nodes| - 1
  {
    TrimmedIdsAreOrdered(f, order);
    if HasTrimmedIds(f) {
      forall i | 0 <= i < |order| ensures steps[i].id == order[i] { TrimTrims(order[i]); }
      LinearIsRecordIff(steps, order, f);
    } else {
      var i :| 0 <= i < |order| && !IsTrimmed(order[i]);
      UntrimmedIdIsLost(steps, order, f.edges, order[i]);
    }
  }

  /** The dependencies come back unchanged exactly if the ids are trimmed and the flow is a single chain. */
  lemma DependenciesComeBackIff(h: Host, f: Flow, order: seq<string>, options: Options)
    requires IsSetting(h, f, order)
    ensures var p := CompiledPlan(h, f, order, options);
            Fallback(h, p).dependencies == p.dependencies <==> HasTrimmedIds(f) && |f.edges| == |f.nodes| - 1
  {
    PlanDependencies(h, f, order, options);
    FallbackIds(h, f, order, options);
    SettingIsUnbranched(h, f, order);
    IdsComeBackIff(Fallback(h, CompiledPlan(h, f, order, options)).steps, order, f);
  }

  // ---------- Variables ----------

  lemma {:induction false} NamedIsShorter(variables: seq<Variable>)
    ensures |Named(variables)| <= |variables|
    ensures |Named(variables)| == |variables| <==> forall v :: v in variables ==> !IsBlank(v.name)
    ensures |Named(variables)| == |variables| ==> Named(variables) == variables
    decreases |variables|
  {
    if variables != [] {
      NamedIsShorter(variables[1..]);
      assert variables == [variables[0]] + variables[1..];
    }
  }

  lemma SortedLength<T>(le: Order<T>, s: seq<T>)
    ensures |Sort(le, s)| == |s| && forall x :: x in Sort(le, s) <==> x in s
  {
    SortPermutes(le, s);
    SameMembers(Sort(le, s), s);
  }

  /** Dropping variables before sorting them leaves the result alone exactly if none is dropped. */
  lemma SortedVariablesIff(h: Host, all: seq<Variable>)
    ensures Sort(ByComposite(h), Sort(ByName(h), Named(all))) == Sort(ByComposite(h), Sort(ByName(h), all))
       <==> forall v :: v in Sort(ByComposite(h), Sort(ByName(h), all)) ==> !IsBlank(v.name)
  {
    NamedIsShorter(all);
    SortedLength(ByName(h), all);
    SortedLength(ByName(h), Named(all));
    SortedLength(ByComposite(h), Sort(ByName(h), all));
    SortedLength(ByComposite(h), Sort(ByName(h), Named(all)));
  }

  /** Repairing a compiled configuration touches neither what it saves nor what it sets. */
  lemma CompiledVariablesStay(h: Host, k: NodeKind)
    requires TrustedHost(h) && IsValidKind(k) && IsTransported(k)
    ensures var c := ToConfig(h, k);
            && SaveOf(RepairConfig(c)) == SaveOf(c)
            && (c.SetVariable? || RepairConfig(c).SetVariable? ==> RepairConfig(c) == c)
  {
    CompiledConfigIsBuilt(h, k);
    var c := ToConfig(h, k);
    DumpOptional(SaveOf(c));
    if c.SetVariable? { DumpOptional(c.value); }
  }

  lemma CompiledStepStays(h: Host, f: Flow, order: seq<string>, options: Options, i: nat)
    requires IsSetting(h, f, order) && HasTrimmedIds(f) && i < |order|
    ensures var raw := StepsInOrder(h, f.nodes, order);
            var steps := Fallback(h, CompiledPlan(h, f, order, options)).steps;
            && i < |steps| && raw[i].id == steps[i].id
            && steps[i].config == RepairConfig(raw[i].config)
            && raw[i].config == ToConfig(h, NodeAt(f, order, i).kind)
  {
    PlanIds(h, f, order, options);
    StepInOrder(h, f.nodes, order, i);
    StepOfPlan(h, f, order, options, i);
    RepairedStepAt(WithDefaultVersions(CompiledPlan(h, f, order, options).steps), i);
  }

  lemma OutlineAt(h: Host, f: Flow, order: seq<string>, options: Options, i: nat)
    requires IsSetting(h, f, order) && HasTrimmedIds(f) && i < |order|
    ensures var raw := StepsInOrder(h, f.nodes, order);
            var steps := Fallback(h, CompiledPlan(h, f, order, options)).steps;
            && i < |steps| && raw[i].id == steps[i].id && SaveOf(raw[i].config) == SaveOf(steps[i].config)
            && (raw[i].config.SetVariable? || steps[i].config.SetVariable? ==> raw[i].config == steps[i].config)
  {
    CompiledStepStays(h, f, order, options, i);
    assert order[i] in order && NodeAt(f, order, i) in f.nodes;
    CompiledVariablesStay(h, NodeAt(f, order, i).kind);
  }

  lemma OutlinesOf(raw: seq<Step>, steps: seq<Step>)
    requires |raw| == |steps|
    requires forall i :: 0 <= i < |raw| ==>
               && raw[i].id == steps[i].id && SaveOf(raw[i].config) == SaveOf(steps[i].config)
               && (raw[i].config.SetVariable? || steps[i].config.SetVariable? ==> raw[i].config == steps[i].config)
    ensures SameOutline(raw, steps)
  {
  }

  lemma CompiledOutline(h: Host, f: Flow, order: seq<string>, options: Options)
    requires IsSetting(h, f, order) && HasTrimmedIds(f)
    ensures SameOutline(StepsInOrder(h, f.nodes, order), Fallback(h, CompiledPlan(h, f, order, options)).steps)
  {
    var raw := StepsInOrder(h, f.nodes, order);
    var steps := Fallback(h, CompiledPlan(h, f, order, options)).steps;
    PlanLength(h, f, order, options);
    FallbackKeepsIds(CompiledPlan(h, f, order, options).steps);
    forall i | 0 <= i < |raw|
      ensures raw[i].id == steps[i].id && SaveOf(raw[i].config) == SaveOf(steps[i].config)
      ensures raw[i].config.SetVariable? || steps[i].config.SetVariable? ==> raw[i].config == steps[i].config
    {
      OutlineAt(h, f, order, options, i);
    }
    OutlinesOf(raw, steps);
  }

  lemma VariablesComeBackIff(h: Host, f: Flow, order: seq<string>, options: Options)
    requires IsSetting(h, f, order) && HasTrimmedIds(f)
    ensures var p := CompiledPlan(h, f, order, options);
            Fallback(h, p).variables == p.variables <==> NamesEveryVariable(p)
  {
    var p := CompiledPlan(h, f, order, options);
    CompiledOutline(h, f, order, options);
    OutlineDecidesVariables(h, StepsInOrder(h, f.nodes, order), Fallback(h, p).steps);
    SortedVariablesIff(h, AllVariables(h, StepsInOrder(h, f.nodes, order)));
  }

  // ---------- Plans ----------

  lemma SamePlan(p: Plan, q: Plan)
    requires q == p.(steps := q.steps, dependencies := q.dependencies, variables := q.variables)
    ensures q == p <==> q.steps == p.steps && q.dependencies == p.dependencies && q.variables == p.variables
  {
  }

  /**
   * Re-importing the document of a compiled flow gives its plan back exactly if no node has a version of its own, no
   * request has an expected status or a part of an assertion that `cleanObject` drops, the ids are trimmed, the flow
   * is a single chain and no variable has a blank name.
   */
  lemma FallbackIsIdentityIff(h: Host, f: Flow, order: seq<string>, options: Options)
    requires IsSetting(h, f, order)
    ensures var p := CompiledPlan(h, f, order, options);
            (Import(h, Export(p), SameOptions(p)) == Ok(p)
             <==> && HasDefaultVersions(f) && KeepsAllNodes(f)
                  && HasTrimmedIds(f) && |f.edges| == |f.nodes| - 1 && NamesEveryVariable(p))
  {
    var p := CompiledPlan(h, f, order, options);
    FallbackSucceeds(h, f, order, options);
    SamePlan(p, Fallback(h, p));
    StepsComeBackIff(h, f, order, options);
    DependenciesComeBackIff(h, f, order, options);
    if HasTrimmedIds(f) { VariablesComeBackIff(h, f, order, options); }
  }
}
