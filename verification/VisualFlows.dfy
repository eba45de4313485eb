/** Visual flows, the defaults filled in before compiling, and what a valid flow is. */
module VisualFlows {
  import opened Wrappers
  import opened Json
  import opened Text
  import opened Sorting
  import opened Graphs
  import opened TopoSort

  /** A flow arrives as JSON; what nobody checks to be a text, a number or a list can be any value. */
  datatype FlowAssertion = FlowAssertion(fieldPath: string, operator: Json, expectedValue: Json)

  datatype FlowRequest = FlowRequest(
    verb: string, path: string, headers: Json, query: Json, jsonBody: Json, expectStatus: Json,
    jsonContains: Json, assertions: seq<FlowAssertion>, save: Json)

  datatype NodeKind =
    | ApiNode(request: FlowRequest)
    | WaitNode(durationMs: Number)
    | PollNode(poll: FlowRequest, timeoutSeconds: Number, intervalSeconds: Number, failureMessage: Option<string>)
    | SetVariableNode(variableName: string, value: Json, fromStepId: Option<string>, valuePath: Option<string>)
    | AssertNode(sourceStepId: Option<string>, fieldPath: string, operator: Json, expectedValue: Json)
    | OtherNode

  datatype FlowNode = FlowNode(
    id: string, name: string, kind: NodeKind, version: Json,
    timeoutMs: Json, retryPolicy: Json, continueOnFailure: bool)

  datatype Flow = Flow(version: string, suiteName: string, nodes: seq<FlowNode>, edges: seq<Edge>)

  function KindName(k: NodeKind): string {
    match k
    case ApiNode(_) => "apiRequest"
    case WaitNode(_) => "wait"
    case PollNode(_, _, _, _) => "pollUntil"
    case SetVariableNode(_, _, _, _) => "setVariable"
    case AssertNode(_, _, _, _) => "assert"
    case OtherNode => "unknown"
  }

  function PlainRetry(): Json {
    Obj(map["maxAttempts" := Num(Finite(1.0)), "backoffMs" := Num(Finite(0.0))])
  }

  function MigrateNode(n: FlowNode): FlowNode {
    n.(version := Coalesce(n.version, Str(KindName(n.kind) + "/v1")),
    timeoutMs := Coalesce(n.timeoutMs, Num(Finite(if n.kind.WaitNode? then 60000.0 else 30000.0))),
    retryPolicy := Coalesce(n.retryPolicy, PlainRetry()))
  }

  function IdsOf(nodes: seq<FlowNode>): (r: seq<string>)
    ensures |r| == |nodes| && forall i :: 0 <= i < |nodes| ==> r[i] == nodes[i].id
  {
    if nodes == [] then [] else [nodes[0].id] + IdsOf(nodes[1..])
  }

  // ---------- Validation ----------

  predicate IsPositive(n: Number) {
    n.Finite? && n.value > 0.0
  }

  predicate IsBlank(s: string) {
    Trim(s) == ""
  }

  predicate IsValidRequest(r: FlowRequest) {
    && !IsBlank(r.verb) && !IsBlank(r.path)
    && forall i :: 0 <= i < |r.assertions| ==> !IsBlank(r.assertions[i].fieldPath) && IsTruthy(r.assertions[i].operator)
  }

  predicate IsValidKind(k: NodeKind) {
    match k
    case ApiNode(request) => IsValidRequest(request)
    case WaitNode(durationMs) => IsPositive(durationMs)
    case PollNode(request, timeout, interval, _) =>
      IsValidRequest(request) && IsPositive(timeout) && IsPositive(interval) && interval.value <= timeout.value
    case SetVariableNode(name, _, _, _) => !IsBlank(name)
    case AssertNode(_, fieldPath, _, _) => !IsBlank(fieldPath)
    case OtherNode => false
  }

  predicate IsValidNode(n: FlowNode) {
    !IsBlank(n.id) && !IsBlank(n.name) && IsValidKind(n.kind)
  }

  /** What makes a request configuration valid, text by text. */
  lemma RequestIsValidIff(r: FlowRequest)
    ensures IsValidRequest(r) <==>
              && !AreSpaces(r.verb) && !AreSpaces(r.path)
              && forall a :: a in r.assertions ==> !AreSpaces(a.fieldPath) && IsTruthy(a.operator)
  {
    TrimmedToNothing(r.verb);
    TrimmedToNothing(r.path);
    forall a | a in r.assertions ensures IsBlank(a.fieldPath) <==> AreSpaces(a.fieldPath) { TrimmedToNothing(a.fieldPath); }
  }

  /** A wait lasts, a poll has a positive timeout and an interval within it, names and paths are not blank. */
  lemma KindIsValidIff(k: NodeKind)
    ensures IsValidKind(k) <==>
              match k
              case ApiNode(request) => IsValidRequest(request)
              case WaitNode(duration) => duration.Finite? && duration.value > 0.0
              case PollNode(request, timeout, interval, _) =>
                IsValidRequest(request) && timeout.Finite? && interval.Finite? && 0.0 < interval.value <= timeout.value
              case SetVariableNode(name, _, _, _) => !AreSpaces(name)
              case AssertNode(_, fieldPath, _, _) => !AreSpaces(fieldPath)
              case OtherNode => false
  {
    match k
    case SetVariableNode(name, _, _, _) => TrimmedToNothing(name);
    case AssertNode(_, fieldPath, _, _) => TrimmedToNothing(fieldPath);
    case _ =>
  }

  function Sources(edges: seq<Edge>, t: string): seq<string> {
    if edges == [] then []
    else
      var e := edges[|edges| - 1];
      Sources(edges[..|edges| - 1], t) + if e.target == t then [e.source] else []
  }

  /** No step has two edges in or two edges out. */
  ghost predicate IsUnbranched(ids: seq<string>, edges: seq<Edge>) {
    forall x :: x in ids ==> |Sources(edges, x)| <= 1 && |TargetsOf(edges, x)| <= 1
  }

  ghost predicate IsValidFlow(f: Flow) {
    && (f.version == "1.0" || f.version == "1.1")
    && !IsBlank(f.suiteName) && f.nodes != []
    && AreValid(f.nodes, |f.nodes|)
    && WellFormed(IdsOf(f.nodes), f.edges) && IsUnbranched(IdsOf(f.nodes), f.edges)
  }

  datatype Problem =
    | UnsupportedVersion | NoSuiteName | NoSteps | BlankId | DuplicateId(id: string) | BlankName(id: string)
    | BadConfiguration(id: string) | DanglingEdge | Branching | CyclicFlow

  /** A problem of some node is there. */
  ghost predicate IsNodeProblem(p: Problem, nodes: seq<FlowNode>) {
    match p
    case BlankId => exists i :: 0 <= i < |nodes| && IsBlank(nodes[i].id)
    case DuplicateId(id) => exists i, j :: 0 <= i < j < |nodes| && nodes[i].id == nodes[j].id == id
    case BlankName(id) => exists i :: 0 <= i < |nodes| && nodes[i].id == id && IsBlank(nodes[i].name)
    case BadConfiguration(id) => exists i :: 0 <= i < |nodes| && nodes[i].id == id && !IsValidKind(nodes[i].kind)
    case _ => false
  }

  /** The problem reported is there. */
  ghost predicate IsProblemOf(p: Problem, f: Flow) {
    match p
    case UnsupportedVersion => f.version != "1.0" && f.version != "1.1"
    case NoSuiteName => IsBlank(f.suiteName)
    case NoSteps => f.nodes == []
    case DanglingEdge => exists e :: e in f.edges && (e.source !in IdsOf(f.nodes) || e.target !in IdsOf(f.nodes))
    case Branching => !IsUnbranched(IdsOf(f.nodes), f.edges)
    case CyclicFlow => HasCycle(f.edges)
    case _ => IsNodeProblem(p, f.nodes)
  }

  /** The last checks of a node, whose id is neither blank nor taken. */
  method ValidateNode(nodes: seq<FlowNode>, i: nat) returns (problem: Option<Problem>)
    requires i < |nodes| && !IsBlank(nodes[i].id)
    ensures problem.None? ==> IsValidNode(nodes[i])
    ensures problem.Some? ==> IsNodeProblem(problem.value, nodes)
  {
    var node := nodes[i];
    if IsBlank(node.name) {
      return Some(BlankName(node.id));
    }
    if !IsValidKind(node.kind) {
      return Some(BadConfiguration(node.id));
    }
    return None;
  }

  /** The ids met before position `i` are in `seen`, and no two of them are the same. */
  ghost predicate AreSeen(seen: set<string>, nodes: seq<FlowNode>, i: nat)
    requires i <= |nodes|
  {
    && (forall j :: 0 <= j < i ==> nodes[j].id in seen)
    && (forall x :: x in seen ==> exists j :: 0 <= j < i && nodes[j].id == x)
    && (forall j, k :: 0 <= j < k < i ==> nodes[j].id != nodes[k].id)
  }

  ghost predicate AreValid(nodes: seq<FlowNode>, i: nat)
    requires i <= |nodes|
  {
    forall j :: 0 <= j < i ==> IsValidNode(nodes[j])
  }

  lemma SeenExtends(seen: set<string>, nodes: seq<FlowNode>, i: nat)
    requires i < |nodes| && AreSeen(seen, nodes, i) && nodes[i].id !in seen
    ensures AreSeen(seen + {nodes[i].id}, nodes, i + 1)
  {
    forall x | x in seen + {nodes[i].id} ensures exists j :: 0 <= j < i + 1 && nodes[j].id == x {
      if x in seen {
        var j :| 0 <= j < i && nodes[j].id == x;
      }
    }
  }

  lemma SeenIsDuplicate(seen: set<string>, nodes: seq<FlowNode>, i: nat)
    requires i < |nodes| && AreSeen(seen, nodes, i) && nodes[i].id in seen
    ensures IsNodeProblem(DuplicateId(nodes[i].id), nodes)
  {
    var j :| 0 <= j < i && nodes[j].id == nodes[i].id;
    assert nodes[j].id == nodes[i].id == nodes[i].id;
  }

  method ValidateNodes(nodes: seq<FlowNode>) returns (problem: Option<Problem>)
    ensures problem.None? ==> Distinct(IdsOf(nodes)) && AreValid(nodes, |nodes|)
    ensures problem.Some? ==> IsNodeProblem(problem.value, nodes)
  {
    var seen: set<string> := {};
    for i := 0 to |nodes|
      invariant AreSeen(seen, nodes, i) && AreValid(nodes, i)
    {
      if IsBlank(nodes[i].id) {
        return Some(BlankId);
      }
      if nodes[i].id in seen {
        SeenIsDuplicate(seen, nodes, i);
        return Some(DuplicateId(nodes[i].id));
      }
      SeenExtends(seen, nodes, i);
      seen := seen + {nodes[i].id};
      problem := ValidateNode(nodes, i);
      if problem.Some? {
        return problem;
      }
    }
    return None;
  }

  /** Numbers of edges into and out of every step. */
  ghost predicate AreDegrees(incoming: map<string, int>, outgoing: map<string, int>, ids: seq<string>, edges: seq<Edge>) {
    && incoming.Keys == Members(ids) && outgoing.Keys == Members(ids)
    && (forall x :: x in incoming ==> incoming[x] == |Sources(edges, x)|)
    && (forall x :: x in outgoing ==> outgoing[x] == |TargetsOf(edges, x)|)
  }

  lemma DegreesExtend(incoming: map<string, int>, outgoing: map<string, int>, ids: seq<string>, edges: seq<Edge>, e: Edge)
    requires AreDegrees(incoming, outgoing, ids, edges) && e.source in ids && e.target in ids
    ensures AreDegrees(incoming[e.target := incoming[e.target] + 1], outgoing[e.source := outgoing[e.source] + 1],
                       ids, edges + [e])
  {
    var longer := edges + [e];
    assert longer[..|longer| - 1] == edges && longer[|longer| - 1] == e;
    forall x ensures |Sources(longer, x)| == |Sources(edges, x)| + if e.target == x then 1 else 0 {}
    forall x ensures |TargetsOf(longer, x)| == |TargetsOf(edges, x)| + if e.source == x then 1 else 0 {}
  }

  method CountDegrees(ids: seq<string>, edges: seq<Edge>)
    returns (connected: bool, incoming: map<string, int>, outgoing: map<string, int>)
    ensures connected <==> forall e :: e in edges ==> e.source in ids && e.target in ids
    ensures connected ==> AreDegrees(incoming, outgoing, ids, edges)
  {
    incoming := map x | x in ids :: 0;
    outgoing := map x | x in ids :: 0;
    for i := 0 to |edges|
      invariant AreDegrees(incoming, outgoing, ids, edges[..i])
      invariant forall e :: e in edges[..i] ==> e.source in ids && e.target in ids
    {
      var e := edges[i];
      assert e in edges;
      if e.source !in ids || e.target !in ids {
        return false, incoming, outgoing;
      }
      assert edges[..i + 1] == edges[..i] + [e];
      DegreesExtend(incoming, outgoing, ids, edges[..i], e);
      incoming := incoming[e.target := incoming[e.target] + 1];
      outgoing := outgoing[e.source := outgoing[e.source] + 1];
    }
    assert edges[..|edges|] == edges;
    connected := true;
  }

  method ValidateEdges(f: Flow) returns (problem: Option<Problem>)
    requires Distinct(IdsOf(f.nodes))
    ensures problem.None? ==> WellFormed(IdsOf(f.nodes), f.edges) && IsUnbranched(IdsOf(f.nodes), f.edges)
    ensures problem.Some? ==> problem.value != CyclicFlow && IsProblemOf(problem.value, f)
  {
    var ids := IdsOf(f.nodes);
    var connected, incoming, outgoing := CountDegrees(ids, f.edges);
    if !connected {
      return Some(DanglingEdge);
    }
    if x :| x in ids && (incoming[x] > 1 || outgoing[x] > 1) {
      assert !(|Sources(f.edges, x)| <= 1 && |TargetsOf(f.edges, x)| <= 1);
      return Some(Branching);
    }
    return None;
  }

  /** The checks of `migrate` and `validateFlow`: no problem is found exactly in a valid flow. */
  method ValidateFlow(f: Flow) returns (problem: Option<Problem>)
    ensures problem.None? <==> IsValidFlow(f)
    ensures problem.Some? ==> IsProblemOf(problem.value, f)
  {
    if f.version != "1.0" && f.version != "1.1" {
      return Some(UnsupportedVersion);
    }
    if IsBlank(f.suiteName) {
      return Some(NoSuiteName);
    }
    if f.nodes == [] {
      return Some(NoSteps);
    }
    problem := ValidateNodes(f.nodes);
    if problem.None? {
      problem := ValidateEdges(f);
    }
    if problem.Some? {
      ProblemsMakeInvalid(problem.value, f);
    }
  }

  lemma ProblemsMakeInvalid(p: Problem, f: Flow)
    requires IsProblemOf(p, f) && p != CyclicFlow
    ensures !IsValidFlow(f)
  {
    if IsNodeProblem(p, f.nodes) {
      NodeProblemsMakeInvalid(p, f.nodes);
    }
  }

  lemma NodeProblemsMakeInvalid(p: Problem, nodes: seq<FlowNode>)
    requires IsNodeProblem(p, nodes)
    ensures !Distinct(IdsOf(nodes)) || !AreValid(nodes, |nodes|)
  {
    match p
    case DuplicateId(id) =>
      var i, j :| 0 <= i < j < |nodes| && nodes[i].id == nodes[j].id == id;
      assert IdsOf(nodes)[i] == IdsOf(nodes)[j];
    case _ =>
  }
}
