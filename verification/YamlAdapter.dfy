/** Suite documents to execution plans and back. */
module YamlAdapter {
  import opened Wrappers
  import opened Json
  import opened Text
  import opened Sorting
  import opened ExecutionPlans

  datatype Reason =
    | InvalidSuite | WaitDuration | PollInterval | VariableName | FieldPath | UnsupportedStep | MissingMethod | MissingPath

  /** A rejected document, or a property access or call that throws on the value found. */
  datatype AdapterError = BadRequest(reason: Reason) | TypeError

  // ---------- Import ----------

  /** `value?.trim()`, used only where a missing and a blank string count the same. */
  function TrimText(v: Json): Result<string, AdapterError> {
    if IsNullish(v) then Ok("") else if v.Str? then Ok(Trim(v.s)) else Err(TypeError)
  }

  function OptionalText(s: string): Option<string> {
    if s == "" then None else Some(s)
  }

  function PadStart(s: string, n: nat): string
    decreases n - |s|
  {
    if |s| >= n then s else PadStart("0" + s, n)
  }

  function DefaultId(index: nat): string {
    "step-" + PadStart(Decimal(index + 1), 3)
  }

  function ImportRetry(v: Json): RetryPolicy {
    RetryPolicy(
      PositiveNumber(Coalesce(Field(v, "maxAttempts"), Field(v, "max_attempts")), 1.0),
      NonNegativeNumber(Coalesce(Field(v, "backoffMs"), Field(v, "backoff_ms")), 0.0))
  }

  /** The field path decides whether the operator is looked at. */
  function ImportAssertion(v: Json): Result<Option<Assertion>, AdapterError> {
    if IsNullish(v) then Err(TypeError)
    else
      var fieldPath :- TrimText(Field(v, "field_path"));
      if fieldPath == "" || !IsTruthy(Field(v, "operator")) then Ok(None)
      else
        var expected := Field(v, "expected_value");
        Ok(Some(Assertion(fieldPath, Field(v, "operator"),
                  if expected == Str("") then Undefined else expected)))
  }

  function ImportAssertions(items: seq<Json>): Result<seq<Assertion>, AdapterError> {
    if items == [] then Ok([])
    else
      var first :- ImportAssertion(items[0]);
      var rest :- ImportAssertions(items[1..]);
      Ok(if first.Some? then [first.value] + rest else rest)
  }

  function KeptOrUndefined(v: Json): Json {
    if IsKept(v) then v else Undefined
  }

  /** A record of which `cleanObject` keeps nothing is dropped as a whole. */
  function CleanExpectation(e: Expectation): Option<Expectation> {
    var kept := Expectation(KeptOrUndefined(e.status), KeptOrUndefined(e.jsonContains), e.assertions);
    if kept == Expectation(Undefined, Undefined, []) then None else Some(kept)
  }

  function ImportExpectation(v: Json): Result<Option<Expectation>, AdapterError> {
    var status := Coalesce(Field(v, "status"), Num(Finite(200.0)));
    var list := Coalesce(Field(v, "assertions"), Arr([]));
    if !list.Arr? then Err(TypeError)
    else
      var assertions :- ImportAssertions(list.items);
      Ok(CleanExpectation(Expectation(status, Field(v, "json_contains"), assertions)))
  }

  function ImportRequest(h: Host, v: Json): Result<Request, AdapterError> {
    var verb :- TrimText(Field(v, "method"));
    if verb == "" then Err(BadRequest(MissingMethod))
    else
      var path :- TrimText(Field(v, "path"));
      if path == "" then Err(BadRequest(MissingPath))
      else
        var expectation :- ImportExpectation(Field(v, "expect"));
        Ok(Request(h.upper(verb), path, CleanObject(Field(v, "headers")), CleanObject(Field(v, "query")),
                   KeptOrUndefined(Field(v, "json")), expectation, CleanObject(Field(v, "save"))))
  }

  function Thousandfold(n: Number): Number {
    if n.Finite? then Finite(n.value * 1000.0) else n
  }

  /** Milliseconds if given, else seconds if given. */
  function Duration(h: Host, v: Json, msKey: string, secondsKey: string): Json {
    if !IsNullish(Field(v, msKey)) then Field(v, msKey)
    else if Field(v, secondsKey).Undefined? then Undefined
    else Num(Thousandfold(h.toNumber(Field(v, secondsKey))))
  }

  function ImportPoll(h: Host, v: Json): Result<Config, AdapterError> {
    if IsNullish(v) then Err(TypeError)
    else
      var timeoutMs := PositiveNumber(Duration(h, v, "timeout_ms", "timeout_seconds"), DEFAULT_STEP_TIMEOUT_MS);
      var intervalMs := PositiveNumber(Duration(h, v, "interval_ms", "interval_seconds"), 1000.0);
      if intervalMs > timeoutMs then Err(BadRequest(PollInterval))
      else
        var request :- ImportRequest(h, Field(v, "request"));
        var message :- TrimText(Field(v, "failure_message"));
        Ok(PollUntil(request, timeoutMs, intervalMs, OptionalText(message)))
  }

  function ImportWait(v: Json): Result<Config, AdapterError> {
    if IsNullish(v) then Err(TypeError)
    else
      var duration := Field(v, "duration_ms");
      if duration.Num? && duration.n.Finite? && duration.n.value > 0.0 then Ok(Wait(duration.n.value))
      else Err(BadRequest(WaitDuration))
  }

  function ImportSetVariable(v: Json): Result<Config, AdapterError> {
    if IsNullish(v) then Err(TypeError)
    else
      var name :- TrimText(Field(v, "name"));
      if name == "" then Err(BadRequest(VariableName))
      else
        var from :- TrimText(Field(v, "from_step_id"));
        var path :- TrimText(Field(v, "path"));
        Ok(SetVariable(name, Field(v, "value"), OptionalText(from), OptionalText(path)))
  }

  function ImportAssert(v: Json): Result<Config, AdapterError> {
    if IsNullish(v) then Err(TypeError)
    else
      var fieldPath :- TrimText(Field(v, "field_path"));
      if fieldPath == "" then Err(BadRequest(FieldPath))
      else
        var source :- TrimText(Field(v, "source_step_id"));
        var expected := Field(v, "expected_value");
        Ok(Assert(OptionalText(source), fieldPath, Field(v, "operator"),
                  if expected == Str("") then Undefined else expected))
  }

  predicate Has(v: Json, key: string) {
    (v.Obj? && key in v.fields) || (v.Foreign? && key in v.entries)
  }

  /** The kind of a step is decided by which property it has, for the last two by its `type` as well. */
  function ImportConfig(h: Host, v: Json): Result<Config, AdapterError> {
    if Has(v, "wait") then ImportWait(Field(v, "wait"))
    else if Has(v, "poll") then ImportPoll(h, Field(v, "poll"))
    else if Field(v, "type") == Str("setVariable") && Has(v, "set_variable") then ImportSetVariable(Field(v, "set_variable"))
    else if Field(v, "type") == Str("assert") && Has(v, "assert") then ImportAssert(Field(v, "assert"))
    else if Has(v, "request") then
      var request :- ImportRequest(h, Field(v, "request"));
      Ok(ApiRequest(request))
    else Err(BadRequest(UnsupportedStep))
  }

  function ImportStep(h: Host, v: Json, index: nat): Result<Step, AdapterError> {
    if IsNullish(v) then Err(TypeError)
    else
      var idText :- TrimText(Field(v, "id"));
      var nameText :- TrimText(Field(v, "name"));
      if !v.Obj? && !v.Arr? && !v.Foreign? then Err(TypeError)
      else
        var id := if idText == "" then DefaultId(index) else idText;
        var name := if nameText == "" then id else nameText;
        var config :- ImportConfig(h, v);
        var timeoutMs := if config.PollUntil? then config.timeoutMs
                         else PositiveNumber(Field(v, "timeout_ms"), DEFAULT_STEP_TIMEOUT_MS);
        Ok(Step(id, Str(TypeName(config) + "/v1"), name, config, timeoutMs, ImportRetry(Field(v, "retry_policy")),
                Field(v, "continue_on_failure") == Bool(true)))
  }

  function ImportSteps(h: Host, items: seq<Json>, index: nat): (r: Result<seq<Step>, AdapterError>)
    ensures r.Ok? ==> |r.value| == |items|
  {
    if items == [] then Ok([])
    else
      var first :- ImportStep(h, items[0], index);
      var rest :- ImportSteps(h, items[1..], index + 1);
      Ok([first] + rest)
  }

  function Named(variables: seq<Variable>): seq<Variable> {
    if variables == [] then []
    else (if Trim(variables[0].name) != "" then [variables[0]] else []) + Named(variables[1..])
  }

  function CollectVariables(h: Host, steps: seq<Step>): seq<Variable> {
    Sort(ByName(h), Named(AllVariables(h, steps)))
  }

  function NormalizeRetry(r: RetryPolicy): RetryPolicy {
    RetryPolicy(if r.maxAttempts > 0.0 then r.maxAttempts else 1.0, if r.backoffMs >= 0.0 then r.backoffMs else 0.0)
  }

  function NormalizeStep(s: Step): Step {
    s.(id := Trim(s.id), name := Trim(s.name),
    timeoutMs := if s.timeoutMs > 0.0 then s.timeoutMs else DEFAULT_STEP_TIMEOUT_MS,
    retryPolicy := NormalizeRetry(s.retryPolicy))
  }

  function NormalizeSteps(steps: seq<Step>): seq<Step> {
    if steps == [] then [] else [NormalizeStep(steps[0])] + NormalizeSteps(steps[1..])
  }

  /** `timeoutMs` is still a raw value here. */
  function NormalizePlan(h: Host, revision: string, name: string, steps: seq<Step>, dependencies: map<string, seq<string>>,
                         variables: seq<Variable>, timeoutMs: Json): Plan {
    Plan(if revision == "" then "draft" else revision,
         if Trim(name) == "" then "Unnamed suite" else Trim(name),
         NormalizeSteps(steps),
         map k | k in dependencies :: Sort(CodeUnitLe, dependencies[k]),
         Sort(ByComposite(h), variables),
         PositiveNumber(timeoutMs, DEFAULT_PLAN_TIMEOUT_MS))
  }

  function RevisionOf(options: Options): string {
    options.suiteRevisionId.GetOr("draft")
  }

  function TimeoutOf(suite: Json, options: Options): Json {
    if options.timeoutMs.Some? then Num(options.timeoutMs.value)
    else Coalesce(Field(suite, "timeout_ms"), Num(Finite(DEFAULT_PLAN_TIMEOUT_MS)))
  }

  function FromRawSuite(h: Host, suite: Json, options: Options): Result<Plan, AdapterError>
    requires Field(suite, "tests").Arr?
  {
    var steps :- ImportSteps(h, Field(suite, "tests").items, 0);
    var name :- TrimText(Field(suite, "suite"));
    Ok(NormalizePlan(h, RevisionOf(options), name, steps, LinearDependencies(steps), CollectVariables(h, steps),
                     TimeoutOf(suite, options)))
  }

  /** `importRawYaml` on the loaded document. */
  function Import(h: Host, document: Json, options: Options): Result<Plan, AdapterError> {
    if !IsTruthy(Field(document, "suite")) || !Field(document, "tests").Arr? then Err(BadRequest(InvalidSuite))
    else FromRawSuite(h, document, options)
  }

  // ---------- Export ----------

  function OptStr(s: Option<string>): Json {
    if s.Some? then Str(s.value) else Undefined
  }

  function AssertionFields(a: Assertion): map<string, Json> {
    map["field_path" := Str(a.fieldPath), "operator" := a.operator, "expected_value" := a.expectedValue]
  }

  function ExportAssertion(a: Assertion): Json {
    CleanFields(AssertionFields(a))
  }

  function ExportAssertions(assertions: seq<Assertion>): seq<Json> {
    if assertions == [] then [] else [ExportAssertion(assertions[0])] + ExportAssertions(assertions[1..])
  }

  function ExpectationFields(e: Expectation): map<string, Json> {
    map["status" := e.status, "json_contains" := e.jsonContains, "assertions" := Arr(ExportAssertions(e.assertions))]
  }

  function ExportExpectation(e: Option<Expectation>): Json {
    if e.None? then Undefined else CleanFields(ExpectationFields(e.value))
  }

  function RequestFields(r: Request): map<string, Json> {
    map["method" := Str(r.verb), "path" := Str(r.path), "headers" := CleanObject(r.headers),
        "query" := CleanObject(r.query), "json" := r.json, "expect" := ExportExpectation(r.expectation),
        "save" := CleanObject(r.save)]
  }

  function ExportRequest(r: Request): Json {
    CleanFields(RequestFields(r))
  }

  function ExportRetry(r: RetryPolicy): Json {
    if r == DEFAULT_RETRY then Undefined
    else Obj(map["max_attempts" := Num(Finite(r.maxAttempts)), "backoff_ms" := Num(Finite(r.backoffMs))])
  }

  /** The property that carries a step's configuration. */
  function ConfigKey(c: Config): string {
    match c
    case ApiRequest(_) => "request"
    case Wait(_) => "wait"
    case PollUntil(_, _, _, _) => "poll"
    case SetVariable(_, _, _, _) => "set_variable"
    case Assert(_, _, _, _) => "assert"
    case Sequence(_) => "sequence"
  }

  function StrItems(ids: seq<string>): seq<Json> {
    seq(|ids|, i requires 0 <= i < |ids| => Str(ids[i]))
  }

  function ExportConfig(c: Config): Json {
    match c
    case ApiRequest(request) => ExportRequest(request)
    case Wait(durationMs) => Obj(map["duration_ms" := Num(Finite(durationMs))])
    case PollUntil(request, timeoutMs, intervalMs, message) =>
      Obj(map["request" := ExportRequest(request), "timeout_ms" := Num(Finite(timeoutMs)),
              "interval_ms" := Num(Finite(intervalMs)), "failure_message" := OptStr(message)])
    case SetVariable(name, value, from, path) =>
      Obj(map["name" := Str(name), "value" := value, "from_step_id" := OptStr(from), "path" := OptStr(path)])
    case Assert(source, fieldPath, operator, expected) =>
      Obj(map["source_step_id" := OptStr(source), "field_path" := Str(fieldPath), "operator" := operator,
              "expected_value" := expected])
    case Sequence(ids) => Obj(map["step_ids" := Arr(StrItems(ids))])
  }

  function StepFields(s: Step): map<string, Json> {
    map["id" := Str(s.id), "type" := Str(TypeName(s.config)), "name" := Str(s.name),
        "timeout_ms" := Num(Finite(s.timeoutMs)), "retry_policy" := ExportRetry(s.retryPolicy),
        "continue_on_failure" := if s.continueOnFailure then Bool(true) else Undefined,
        ConfigKey(s.config) := ExportConfig(s.config)]
  }

  function ExportStep(s: Step): Json {
    CleanFields(StepFields(s))
  }

  function ExportSteps(steps: seq<Step>): seq<Json> {
    if steps == [] then []
    else (if steps[0].config.Sequence? then [] else [ExportStep(steps[0])]) + ExportSteps(steps[1..])
  }

  /** `exportYaml`: the document that is dumped. */
  function Export(p: Plan): Json {
    Dump(Obj(map["suite" := Str(p.suiteName), "tests" := Arr(ExportSteps(p.steps))]))
  }
}
