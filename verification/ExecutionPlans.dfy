/** Execution plans, the normal form both suite formats compile to. */
module ExecutionPlans {
  import opened Wrappers
  import opened Json
  import opened Sorting

  datatype RetryPolicy = RetryPolicy(maxAttempts: real, backoffMs: real)

  /** An absent property is `Undefined`. */
  datatype Assertion = Assertion(fieldPath: string, operator: Json, expectedValue: Json)

  /** An absent list of assertions is the empty one; an empty list is never stored. */
  datatype Expectation = Expectation(status: Json, jsonContains: Json, assertions: seq<Assertion>)

  datatype Request = Request(
    verb: string, path: string, headers: Json, query: Json, json: Json, expectation: Option<Expectation>, save: Json)

  datatype Config =
    | ApiRequest(request: Request)
    | Wait(durationMs: real)
    | PollUntil(poll: Request, timeoutMs: real, intervalMs: real, failureMessage: Option<string>)
    | SetVariable(name: string, value: Json, fromStepId: Option<string>, path: Option<string>)
    | Assert(sourceStepId: Option<string>, fieldPath: string, operator: Json, expectedValue: Json)
    | Sequence(stepIds: seq<string>)

  datatype Step = Step(
    id: string, version: Json, name: string, config: Config,
    timeoutMs: real, retryPolicy: RetryPolicy, continueOnFailure: bool)

  datatype Variable = Variable(name: string, sourceStepId: string, path: Json)

  datatype Plan = Plan(
    suiteRevisionId: string, suiteName: string, steps: seq<Step>,
    dependencies: map<string, seq<string>>, variables: seq<Variable>, timeoutMs: real)

  datatype Options = Options(suiteRevisionId: Option<string>, timeoutMs: Option<Number>)

  const DEFAULT_PLAN_TIMEOUT_MS := 300000.0
  const DEFAULT_STEP_TIMEOUT_MS := 30000.0
  const DEFAULT_RETRY := RetryPolicy(1.0, 0.0)

  function TypeName(c: Config): string {
    match c
    case ApiRequest(_) => "apiRequest"
    case Wait(_) => "wait"
    case PollUntil(_, _, _, _) => "pollUntil"
    case SetVariable(_, _, _, _) => "setVariable"
    case Assert(_, _, _, _) => "assert"
    case Sequence(_) => "sequence"
  }

  /**
   * What the host supplies: upper case, number coercion, string conversion, its collation, and the order
   * in which it lists the keys of an object.
   */
  datatype Host = Host(
    upper: string -> string, toNumber: Json -> Number, show: Json -> string,
    collate: Order<string>, listing: set<string> -> seq<string>)

  function PositiveNumber(v: Json, fallback: real): (r: real)
    requires fallback > 0.0
    ensures r > 0.0
  {
    if v.Num? && v.n.Finite? && v.n.value > 0.0 then v.n.value else fallback
  }

  function NonNegativeNumber(v: Json, fallback: real): (r: real)
    requires fallback >= 0.0
    ensures r >= 0.0
  {
    if v.Num? && v.n.Finite? && v.n.value >= 0.0 then v.n.value else fallback
  }

  /** Every step after the first depends on the one before it; a repeated id keeps its last entry. */
  function LinearDependencies(steps: seq<Step>): map<string, seq<string>> {
    if steps == [] then map[]
    else
      var n := |steps| - 1;
      LinearDependencies(steps[..n])[steps[n].id := if n == 0 then [] else [steps[n - 1].id]]
  }

  function SaveOf(c: Config): Json {
    match c
    case ApiRequest(request) => request.save
    case PollUntil(request, _, _, _) => request.save
    case _ => Undefined
  }

  function Listed(keys: seq<string>, fields: map<string, Json>, stepId: string): seq<Variable> {
    if keys == [] then []
    else
      [Variable(keys[0], stepId, if keys[0] in fields then fields[keys[0]] else Undefined)]
      + Listed(keys[1..], fields, stepId)
  }

  function VariablesOf(h: Host, s: Step): seq<Variable> {
    if s.config.SetVariable? then [Variable(s.config.name, s.id, Str(s.config.path.GetOr("$")))]
    else if SaveOf(s.config).Obj? then
      Listed(h.listing(SaveOf(s.config).fields.Keys), SaveOf(s.config).fields, s.id)
    else []
  }

  function AllVariables(h: Host, steps: seq<Step>): seq<Variable> {
    if steps == [] then [] else VariablesOf(h, steps[0]) + AllVariables(h, steps[1..])
  }

  function ByName(h: Host): Order<Variable> {
    (a: Variable, b: Variable) => h.collate(a.name, b.name)
  }

  function Composite(h: Host, v: Variable): string {
    v.name + ":" + v.sourceStepId + ":" + h.show(v.path)
  }

  function ByComposite(h: Host): Order<Variable> {
    (a: Variable, b: Variable) => h.collate(Composite(h, a), Composite(h, b))
  }
}
