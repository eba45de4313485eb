/** Dependencies of a compiled flow against the linear ones of its fallback. */
module VisualDependencies {
  import opened Wrappers
  import opened Json
  import opened Text
  import opened Sorting
  import opened Graphs
  import opened TopoSort
  import opened ExecutionPlans
  import opened YamlAdapter
  import opened YamlRoundTrip
  import opened VisualFlows
  import opened VisualCompiler
  import opened VisualFallback

  predicate HasTrimmedIds(f: Flow) {
    forall n :: n in f.nodes ==> IsTrimmed(n.id)
  }

  /** A way along recorded dependencies, from a step back to what it depends on. */
  predicate IsDependencyPath(path: seq<string>, d: map<string, seq<string>>) {
    forall i :: 0 <= i < |path| - 1 ==> path[i] in d && path[i + 1] in d[path[i]]
  }

  ghost predicate DependsOn(d: map<string, seq<string>>, x: string, y: string) {
    exists path :: |path| >= 2 && path[0] == x && path[|path| - 1] == y && IsDependencyPath(path, d)
  }

  ghost predicate HasIds(steps: seq<Step>, order: seq<string>) {
    |steps| == |order| && forall i :: 0 <= i < |order| ==> steps[i].id == order[i]
  }

  lemma {:induction false} LinearAt(steps: seq<Step>, order: seq<string>, i: nat)
    requires HasIds(steps, order) && Distinct(order) && i < |order|
    ensures order[i] in LinearDependencies(steps)
    ensures LinearDependencies(steps)[order[i]] == if i == 0 then [] else [order[i - 1]]
    decreases |steps|
  {
    var n := |steps| - 1;
    if i < n {
      LinearAt(steps[..n], order[..n], i);
      assert order[i] != order[n];
    }
  }

  lemma {:induction false} LinearKeys(steps: seq<Step>, x: string)
    ensures x in LinearDependencies(steps) <==> exists i :: 0 <= i < |steps| && steps[i].id == x
    decreases |steps|
  {
    if steps != [] {
      var n := |steps| - 1;
      LinearKeys(steps[..n], x);
      if x in LinearDependencies(steps[..n]) {
        var i :| 0 <= i < n && steps[..n][i].id == x;
        assert steps[i].id == x;
      }
      if i :| 0 <= i < |steps| && steps[i].id == x {
        assert i < n ==> steps[..n][i].id == x;
      }
    }
  }

  lemma {:induction false} SourcesAreEdges(edges: seq<Edge>, s: string, t: string)
    ensures s in Sources(edges, t) <==> Edge(s, t) in edges
    decreases |edges|
  {
    if edges != [] {
      var front := edges[..|edges| - 1];
      assert edges == front + [edges[|edges| - 1]];
      SourcesAreEdges(front, s, t);
    }
  }

  lemma PlanIds(h: Host, f: Flow, order: seq<string>, options: Options)
    requires IsSetting(h, f, order) && HasTrimmedIds(f)
    ensures HasIds(CompiledPlan(h, f, order, options).steps, order)
  {
    PlanLength(h, f, order, options);
    forall i | 0 <= i < |order| ensures CompiledPlan(h, f, order, options).steps[i].id == order[i] {
      StepOfPlan(h, f, order, options, i);
      assert order[i] in order;
      assert NodeAt(f, order, i) in f.nodes;
      TrimTrims(order[i]);
    }
  }

  lemma PlanDependencies(h: Host, f: Flow, order: seq<string>, options: Options)
    requires IsSetting(h, f, order)
    ensures CompiledPlan(h, f, order, options).dependencies == DependencyRecord(order, f.edges)
  {
    var d := DependencyRecord(order, f.edges);
    forall x | x in d ensures Sort(CodeUnitLe, d[x]) == d[x] {
      SortingTwiceIsOnce(Sources(f.edges, x));
    }
    hide Sort, CodeUnitLe, Sources, DependencyRecord, AllVariables, IsSetting;
    assert (map x | x in d :: Sort(CodeUnitLe, d[x])) == d;
  }

  /** `d` lets every step of the order depend on the one before it. */
  ghost predicate IsLinear(d: map<string, seq<string>>, order: seq<string>) {
    forall i :: 0 <= i < |order| ==> order[i] in d && d[order[i]] == if i == 0 then [] else [order[i - 1]]
  }

  lemma LinearIsLinear(steps: seq<Step>, order: seq<string>)
    requires HasIds(steps, order) && Distinct(order)
    ensures IsLinear(LinearDependencies(steps), order)
  {
    forall i | 0 <= i < |order|
      ensures order[i] in LinearDependencies(steps)
      ensures LinearDependencies(steps)[order[i]] == if i == 0 then [] else [order[i - 1]]
    {
      LinearAt(steps, order, i);
    }
  }

  lemma LaterDependsOnEarlier(d: map<string, seq<string>>, order: seq<string>, i: nat, j: nat)
    requires IsLinear(d, order) && i < j < |order|
    ensures DependsOn(d, order[j], order[i])
  {
    var path := seq(j - i + 1, k requires 0 <= k <= j - i => order[j - k]);
    forall k | 0 <= k < |path| - 1 ensures path[k] in d && path[k + 1] in d[path[k]] {
      assert path[k] == order[j - k] && path[k + 1] == order[j - k - 1];
    }
    assert path[0] == order[j] && path[|path| - 1] == order[i];
    assert IsDependencyPath(path, d);
  }

  lemma RecordedIsEdge(order: seq<string>, edges: seq<Edge>, x: string, y: string)
    requires x in DependencyRecord(order, edges) && y in DependencyRecord(order, edges)[x]
    ensures Edge(y, x) in edges
  {
    SortPermutes(CodeUnitLe, Sources(edges, x));
    SameMembers(Sort(CodeUnitLe, Sources(edges, x)), Sources(edges, x));
    SourcesAreEdges(edges, y, x);
  }

  lemma EdgePositions(order: seq<string>, ids: seq<string>, edges: seq<Edge>, e: Edge) returns (i: nat, j: nat)
    requires WellFormed(ids, edges) && IsTopological(order, ids, edges) && e in edges
    ensures i < j < |order| && order[i] == e.source && order[j] == e.target
  {
    OrderMembers(order, ids, edges);
    i :| 0 <= i < |order| && order[i] == e.source;
    j :| 0 <= j < |order| && order[j] == e.target;
    assert IsEdge(edges, order[i], order[j]);
  }

  lemma EdgeIsImplied(steps: seq<Step>, order: seq<string>, ids: seq<string>, edges: seq<Edge>, e: Edge)
    requires HasIds(steps, order) && WellFormed(ids, edges) && IsTopological(order, ids, edges) && e in edges
    ensures DependsOn(LinearDependencies(steps), e.target, e.source)
  {
    var i, j := EdgePositions(order, ids, edges, e);
    LinearIsLinear(steps, order);
    LaterDependsOnEarlier(LinearDependencies(steps), order, i, j);
  }

  lemma FallbackKeepsIds(steps: seq<Step>)
    ensures SameIds(steps, FallbackSteps(steps))
  {
    RepairKeepsIds(WithDefaultVersions(steps));
  }

  lemma FallbackHasIds(steps: seq<Step>, order: seq<string>)
    requires HasIds(steps, order)
    ensures HasIds(FallbackSteps(steps), order)
  {
    FallbackKeepsIds(steps);
  }

  lemma RecordedDependencyIsImplied(h: Host, f: Flow, order: seq<string>, options: Options, x: string, y: string)
    requires IsSetting(h, f, order) && HasTrimmedIds(f)
    requires x in DependencyRecord(order, f.edges) && y in DependencyRecord(order, f.edges)[x]
    ensures DependsOn(Fallback(h, CompiledPlan(h, f, order, options)).dependencies, x, y)
  {
    var p := CompiledPlan(h, f, order, options);
    PlanIds(h, f, order, options);
    RecordedIsEdge(order, f.edges, x, y);
    FallbackHasIds(p.steps, order);
    EdgeIsImplied(FallbackSteps(p.steps), order, IdsOf(f.nodes), f.edges, Edge(y, x));
  }

  /** Every dependency the flow records follows from the linear ones of its fallback. */
  lemma LinearOrderImpliesDependencies(h: Host, f: Flow, order: seq<string>, options: Options)
    requires IsSetting(h, f, order) && HasTrimmedIds(f)
    ensures var p := CompiledPlan(h, f, order, options);
            forall x, y :: x in p.dependencies && y in p.dependencies[x] ==> DependsOn(Fallback(h, p).dependencies, x, y)
  {
    PlanDependencies(h, f, order, options);
    var record := DependencyRecord(order, f.edges);
    forall x, y | x in record && y in record[x]
      ensures DependsOn(Fallback(h, CompiledPlan(h, f, order, options)).dependencies, x, y)
    {
      RecordedDependencyIsImplied(h, f, order, options, x, y);
    }
  }

  // ---------- Chains ----------

  function EdgesInto(edges: seq<Edge>, order: seq<string>): nat {
    if order == [] then 0 else |Sources(edges, order[0])| + EdgesInto(edges, order[1..])
  }

  lemma {:induction false} OneMoreEdgeInto(edges: seq<Edge>, e: Edge, order: seq<string>)
    requires Distinct(order)
    ensures EdgesInto(edges + [e], order) == EdgesInto(edges, order) + if e.target in order then 1 else 0
    decreases |order|
  {
    if order != [] {
      SourcesExtend(edges, e, order[0]);
      OneMoreEdgeInto(edges, e, order[1..]);
      assert order == [order[0]] + order[1..];
      assert order[0] !in order[1..];
    }
  }

  lemma {:induction false} NoEdgesInto(order: seq<string>)
    ensures EdgesInto([], order) == 0
    decreases |order|
  {
    if order != [] { NoEdgesInto(order[1..]); }
  }

  /** Every edge goes into exactly one step. */
  lemma {:induction false} EdgesAreCounted(edges: seq<Edge>, order: seq<string>)
    requires Distinct(order) && forall e :: e in edges ==> e.target in order
    ensures EdgesInto(edges, order) == |edges|
    decreases |edges|
  {
    if edges == [] {
      NoEdgesInto(order);
    } else {
      var front := edges[..|edges| - 1];
      var e := edges[|edges| - 1];
      assert edges == front + [e] && e in edges;
      EdgesAreCounted(front, order);
      OneMoreEdgeInto(front, e, order);
    }
  }

  /** With at most one edge into each step, as many edges as steps means one into every step. */
  lemma {:induction false} FullCount(edges: seq<Edge>, order: seq<string>)
    requires forall i :: 0 <= i < |order| ==> |Sources(edges, order[i])| <= 1
    ensures EdgesInto(edges, order) <= |order|
    ensures EdgesInto(edges, order) == |order| <==> forall i :: 0 <= i < |order| ==> |Sources(edges, order[i])| == 1
    decreases |order|
  {
    if order != [] {
      FullCount(edges, order[1..]);
      assert forall i :: 0 <= i < |order[1..]| ==> order[1..][i] == order[i + 1];
      if forall i :: 0 <= i < |order[1..]| ==> |Sources(edges, order[1..][i])| == 1 {
        forall i | 0 < i < |order| ensures |Sources(edges, order[i])| == 1 {
          assert order[1..][i - 1] == order[i];
        }
      }
    }
  }

  /** Every step but the first follows the one before it in the order. */
  ghost predicate IsChain(order: seq<string>, edges: seq<Edge>) {
    forall i :: 0 <= i < |order| ==> Sources(edges, order[i]) == if i == 0 then [] else [order[i - 1]]
  }

  ghost predicate IsUnbranchedOrder(order: seq<string>, f: Flow) {
    && WellFormed(IdsOf(f.nodes), f.edges) && IsUnbranched(IdsOf(f.nodes), f.edges)
    && IsTopological(order, IdsOf(f.nodes), f.edges)
  }

  lemma {:induction false} NoSource(edges: seq<Edge>, t: string)
    requires forall e :: e in edges ==> e.target != t
    ensures Sources(edges, t) == []
    decreases |edges|
  {
    if edges != [] {
      var front := edges[..|edges| - 1];
      assert edges == front + [edges[|edges| - 1]];
      assert edges[|edges| - 1] in edges;
      NoSource(front, t);
    }
  }

  lemma FirstHasNoSource(order: seq<string>, f: Flow)
    requires IsUnbranchedOrder(order, f) && order != []
    ensures Sources(f.edges, order[0]) == []
  {
    forall e | e in f.edges ensures e.target != order[0] {
      var i, j := EdgePositions(order, IdsOf(f.nodes), f.edges, e);
    }
    NoSource(f.edges, order[0]);
  }

  lemma OneTargetOnly(edges: seq<Edge>, s: string, t: string, u: string)
    requires |TargetsOf(edges, s)| <= 1 && Edge(s, t) in edges && t != u
    ensures Edge(s, u) !in edges
  {
    TargetsAreEdges(edges, s, t);
    TargetsAreEdges(edges, s, u);
  }

  ghost predicate HaveOneSource(order: seq<string>, edges: seq<Edge>) {
    forall k :: 0 < k < |order| ==> |Sources(edges, order[k])| == 1
  }

  /** Step `k` already leads to its successor, so it leads nowhere else. */
  lemma LeadsNowhereElse(order: seq<string>, f: Flow, k: nat, i: nat)
    requires IsUnbranchedOrder(order, f) && k + 1 < i < |order|
    requires Sources(f.edges, order[k + 1]) == [order[k]]
    ensures Edge(order[k], order[i]) !in f.edges
  {
    OrderMembers(order, IdsOf(f.nodes), f.edges);
    SourcesAreEdges(f.edges, order[k], order[k + 1]);
    assert order[k] in order;
    OneTargetOnly(f.edges, order[k], order[k + 1], order[i]);
  }

  lemma SourceComesBefore(order: seq<string>, ids: seq<string>, edges: seq<Edge>, s: string, i: nat) returns (m: nat)
    requires WellFormed(ids, edges) && IsTopological(order, ids, edges) && i < |order| && Edge(s, order[i]) in edges
    ensures m < i && order[m] == s
  {
    var j;
    m, j := EdgePositions(order, ids, edges, Edge(s, order[i]));
  }

  lemma SourceOf(order: seq<string>, f: Flow, i: nat) returns (m: nat)
    requires IsUnbranchedOrder(order, f) && i < |order| && |Sources(f.edges, order[i])| == 1
    ensures m < i && Edge(order[m], order[i]) in f.edges && Sources(f.edges, order[i]) == [order[m]]
  {
    var s := Sources(f.edges, order[i])[0];
    SourcesAreEdges(f.edges, s, order[i]);
    m := SourceComesBefore(order, IdsOf(f.nodes), f.edges, s, i);
  }

  /** The only step that can lead to step `i` is the one before it: the earlier ones already lead elsewhere. */
  lemma {:induction false} SourceIsPrevious(order: seq<string>, f: Flow, i: nat)
    requires IsUnbranchedOrder(order, f) && 0 < i < |order| && HaveOneSource(order, f.edges)
    ensures Sources(f.edges, order[i]) == [order[i - 1]]
    decreases i
  {
    var m := SourceOf(order, f, i);
    if m < i - 1 {
      SourceIsPrevious(order, f, m + 1);
      LeadsNowhereElse(order, f, m, i);
      assert false;
    }
  }

  lemma SourcesAreFew(order: seq<string>, f: Flow)
    requires IsUnbranchedOrder(order, f) && order != []
    ensures |order| == |f.nodes|
    ensures forall i :: 0 <= i < |order[1..]| ==> |Sources(f.edges, order[1..][i])| <= 1
    ensures EdgesInto(f.edges, order[1..]) == |f.edges|
  {
    OrderMembers(order, IdsOf(f.nodes), f.edges);
    forall i | 0 <= i < |order[1..]| ensures |Sources(f.edges, order[1..][i])| <= 1 {
      assert order[i + 1] in order;
    }
    EdgesAreCounted(f.edges, order);
    FirstHasNoSource(order, f);
  }

  lemma OneSourceByCount(order: seq<string>, f: Flow)
    requires IsUnbranchedOrder(order, f) && order != []
    ensures HaveOneSource(order, f.edges) <==> |f.edges| == |f.nodes| - 1
  {
    var tail := order[1..];
    SourcesAreFew(order, f);
    FullCount(f.edges, tail);
    assert forall i :: 0 <= i < |tail| ==> tail[i] == order[i + 1];
    if forall i :: 0 <= i < |tail| ==> |Sources(f.edges, tail[i])| == 1 {
      forall k | 0 < k < |order| ensures |Sources(f.edges, order[k])| == 1 { assert tail[k - 1] == order[k]; }
    }
  }

  /** An unbranched acyclic flow is a single chain exactly if it has one edge fewer than steps. */
  lemma ChainIffEdgeCount(order: seq<string>, f: Flow)
    requires IsUnbranchedOrder(order, f) && order != []
    ensures IsChain(order, f.edges) <==> |f.edges| == |f.nodes| - 1
  {
    OneSourceByCount(order, f);
    if HaveOneSource(order, f.edges) {
      FirstHasNoSource(order, f);
      forall i | 0 < i < |order| ensures Sources(f.edges, order[i]) == [order[i - 1]] { SourceIsPrevious(order, f, i); }
    }
    if IsChain(order, f.edges) {
      forall k | 0 < k < |order| ensures |Sources(f.edges, order[k])| == 1 {
        assert Sources(f.edges, order[k]) == [order[k - 1]];
      }
    }
  }
}
