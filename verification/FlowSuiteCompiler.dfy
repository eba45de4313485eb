/** The older flow compiler, which writes a suite document directly, against the newer one. */
module FlowSuiteCompiler {
  import opened Wrappers
  import opened Json
  import opened Text
  import opened Sorting
  import opened Graphs
  import opened ExecutionPlans
  import opened YamlAdapter
  import opened YamlRoundTrip
  import opened VisualFlows
  import opened VisualCompiler
  import opened VisualFallback
  import opened VisualDependencies
  import opened VisualIdentity

  // ---------- The document of a step ----------

  predicate IsPresent(v: Json) {
    v != Undefined && v != Str("")
  }

  function PresentFields(fields: map<string, Json>): Json {
    var kept := map k | k in fields && IsPresent(fields[k]) :: fields[k];
    if kept == map[] then Undefined else Obj(kept)
  }

  /** Unlike `cleanObject`, this keeps empty arrays. */
  function CleanRecord(v: Json): Json {
    match v
    case Obj(fields) => PresentFields(fields)
    case Arr(items) => PresentFields(ByPosition(items))
    case _ => Undefined
  }

  function AssertionCase(a: FlowAssertion): Json {
    Obj(map["field_path" := Str(Trim(a.fieldPath)), "operator" := a.operator,
            "expected_value" := ExpectedValue(a.expectedValue)])
  }

  function AssertionCases(assertions: seq<FlowAssertion>): seq<Json> {
    if assertions == [] then []
    else
      var a := assertions[0];
      var rest := AssertionCases(assertions[1..]);
      if IsBlank(a.fieldPath) || !IsTruthy(a.operator) then rest else [AssertionCase(a)] + rest
  }

  function ExpectationCase(r: FlowRequest): Json {
    var entries := AssertionCases(r.assertions);
    PresentFields(map["status" := Coalesce(r.expectStatus, Num(Finite(200.0))), "json_contains" := r.jsonContains,
                      "assertions" := if entries == [] then Undefined else Arr(entries)])
  }

  function RequestCase(h: Host, r: FlowRequest): Json {
    Obj(map["method" := Str(h.upper(r.verb)), "path" := Str(r.path), "headers" := CleanRecord(r.headers),
            "query" := CleanRecord(r.query), "json" := r.jsonBody, "expect" := ExpectationCase(r),
            "save" := CleanRecord(r.save)])
  }

  function CaseKey(k: NodeKind): string {
    match k
    case WaitNode(_) => "wait"
    case PollNode(_, _, _, _) => "poll"
    case SetVariableNode(_, _, _, _) => "set_variable"
    case AssertNode(_, _, _, _) => "assert"
    case _ => "request"
  }

  const CASE_KEYS := {"wait", "poll", "set_variable", "assert", "request"}

  function CaseConfig(h: Host, k: NodeKind): Json
    requires !k.OtherNode?
  {
    match k
    case ApiNode(request) => RequestCase(h, request)
    case WaitNode(durationMs) => Obj(map["duration_ms" := Num(durationMs)])
    case PollNode(request, timeout, interval, message) =>
      Obj(map["request" := RequestCase(h, request), "timeout_seconds" := Num(timeout), "interval_seconds" := Num(interval),
              "failure_message" := OptStr(OptionalTrimmed(message))])
    case SetVariableNode(name, value, from, path) =>
      Obj(map["name" := Str(name), "value" := value, "from_step_id" := OptStr(OptionalTrimmed(from)),
              "path" := OptStr(OptionalTrimmed(path))])
    case AssertNode(source, fieldPath, operator, expected) =>
      Obj(map["source_step_id" := OptStr(OptionalTrimmed(source)), "field_path" := Str(fieldPath),
              "operator" := operator, "expected_value" := ExpectedValue(expected)])
  }

  function TestCase(h: Host, n: FlowNode): Json
    requires !n.kind.OtherNode?
  {
    Obj(map["id" := Str(n.id), "type" := Str(KindName(n.kind)), "name" := Str(n.name),
            CaseKey(n.kind) := CaseConfig(h, n.kind)])
  }

  /** An expected status of `""` is not written, and the import reads a missing one as 200. */
  function ReadStatus(r: FlowRequest): FlowRequest {
    if r.expectStatus == Str("") then r.(expectStatus := Num(Finite(200.0))) else r
  }

  function ReadKind(k: NodeKind): NodeKind {
    match k
    case ApiNode(request) => ApiNode(ReadStatus(request))
    case PollNode(request, timeout, interval, message) => PollNode(ReadStatus(request), timeout, interval, message)
    case _ => k
  }

  // ---------- What the host is trusted with in addition ----------

  /** Upper-casing neither makes nor removes white space at the ends, and a number is itself as a number. */
  ghost predicate TrustedText(h: Host) {
    && (forall s :: Trim(h.upper(s)) == h.upper(Trim(s)))
    && (forall n :: h.toNumber(Num(n)) == n)
  }

  // ---------- Importing it ----------

  lemma CleaningPresentFields(fields: map<string, Json>)
    ensures CleanObject(PresentFields(fields)) == CleanFields(fields)
  {
    var present := map k | k in fields && IsPresent(fields[k]) :: fields[k];
    var kept := map k | k in fields && IsKept(fields[k]) :: fields[k];
    assert (map k | k in present && IsKept(present[k]) :: present[k]) == kept;
    assert kept.Keys <= present.Keys;
  }

  lemma DumpedJsonValue(v: Json)
    requires IsJsonValue(v)
    ensures Dump(v) == v
  {
    if v != Undefined { DumpIsIdentityIff(v); }
  }

  lemma PresentFieldsAreJson(fields: map<string, Json>)
    requires forall k :: k in fields ==> IsJsonValue(fields[k])
    ensures Dump(PresentFields(fields)) == PresentFields(fields)
  {
    if PresentFields(fields) != Undefined { DumpIsIdentityIff(PresentFields(fields)); }
  }

  /** Dropping less before the import makes no difference after it. */
  lemma CleanedAnyway(v: Json)
    requires IsJsonValue(v)
    ensures CleanObject(Dump(CleanRecord(v))) == CleanObject(v)
  {
    match v
    case Obj(fields) =>
      PresentFieldsAreJson(fields);
      CleaningPresentFields(fields);
    case Arr(items) =>
      forall k | k in ByPosition(items) ensures IsJsonValue(ByPosition(items)[k]) {
        ByPositionYaml(items, k);
        ByPositionPlain(items, k);
      }
      PresentFieldsAreJson(ByPosition(items));
      CleaningPresentFields(ByPosition(items));
    case _ =>
  }

  lemma AssertionCaseIsImported(a: FlowAssertion)
    requires !IsBlank(a.fieldPath) && IsTruthy(a.operator) && IsJsonValue(a.operator) && IsJsonValue(a.expectedValue)
    ensures ImportAssertion(Dump(AssertionCase(a)))
         == Ok(Some(Assertion(Trim(a.fieldPath), a.operator, ExpectedValue(a.expectedValue))))
  {
    var v := AssertionCase(a);
    DumpKeepsFields(v, "field_path");
    DumpKeepsFields(v, "operator");
    DumpKeepsFields(v, "expected_value");
    DumpedJsonValue(a.operator);
    DumpedJsonValue(ExpectedValue(a.expectedValue));
    TrimTrims(a.fieldPath);
  }

  lemma DumpedList(first: Json, rest: seq<Json>)
    ensures Dump(Arr([first] + rest)).items == [Dump(first)] + Dump(Arr(rest)).items
  {
  }

  predicate AreJsonAssertions(assertions: seq<FlowAssertion>) {
    forall i :: 0 <= i < |assertions| ==> IsJsonValue(assertions[i].operator) && IsJsonValue(assertions[i].expectedValue)
  }

  lemma {:induction false} AssertionCasesAreImported(assertions: seq<FlowAssertion>)
    requires AreJsonAssertions(assertions)
    ensures ImportAssertions(Dump(Arr(AssertionCases(assertions))).items) == Ok(ToAssertions(assertions))
    decreases |assertions|
  {
    if assertions == [] {
      assert Dump(Arr([])).items == [];
    } else {
      var a, rest := assertions[0], AssertionCases(assertions[1..]);
      AssertionCasesAreImported(assertions[1..]);
      if !IsBlank(a.fieldPath) && IsTruthy(a.operator) {
        AssertionCaseIsImported(a);
        FirstIsImported(Dump(AssertionCase(a)), Dump(Arr(rest)).items);
        DumpedList(AssertionCase(a), rest);
      }
    }
  }

  lemma FirstIsImported(first: Json, rest: seq<Json>)
    requires ImportAssertion(first).Ok? && ImportAssertion(first).value.Some? && ImportAssertions(rest).Ok?
    ensures ImportAssertions([first] + rest) == Ok([ImportAssertion(first).value.value] + ImportAssertions(rest).value)
  {
    assert ([first] + rest)[1..] == rest;
  }

  predicate AreExpectationFields(fields: map<string, Json>, r: FlowRequest) {
    var entries := AssertionCases(r.assertions);
    && "status" in fields && fields["status"] == Coalesce(r.expectStatus, Num(Finite(200.0)))
    && "json_contains" in fields && fields["json_contains"] == r.jsonContains
    && "assertions" in fields && fields["assertions"] == if entries == [] then Undefined else Arr(entries)
  }

  lemma PresentField(fields: map<string, Json>, key: string)
    ensures Field(PresentFields(fields), key) == if key in fields && IsPresent(fields[key]) then fields[key] else Undefined
    ensures key in fields && IsPresent(fields[key]) ==> PresentFields(fields).Obj?
  {
    var kept := map k | k in fields && IsPresent(fields[k]) :: fields[k];
    if key in fields && IsPresent(fields[key]) { assert key in kept; }
  }

  lemma DumpedPresentField(fields: map<string, Json>, key: string)
    requires key in fields
    ensures Field(Dump(PresentFields(fields)), key) == if IsPresent(fields[key]) then Dump(fields[key]) else Undefined
  {
    PresentField(fields, key);
    DumpKeepsFields(PresentFields(fields), key);
  }

  lemma ExpectationFromCase(v: Json, r: FlowRequest, items: seq<Json>)
    requires var status := Coalesce(r.expectStatus, Num(Finite(200.0)));
             Field(v, "status") == if IsPresent(status) then status else Undefined
    requires Field(v, "json_contains") == if IsPresent(r.jsonContains) then r.jsonContains else Undefined
    requires Field(v, "assertions") == Arr(items) || (Field(v, "assertions") == Undefined && items == [])
    requires ImportAssertions(items) == Ok(ToAssertions(r.assertions))
    ensures ImportExpectation(v) == Ok(ToExpectation(ReadStatus(r)))
  {
  }

  lemma ExpectationCaseIsImported(r: FlowRequest, fields: map<string, Json>)
    requires IsTransportedRequest(r) && AreExpectationFields(fields, r)
    ensures ImportExpectation(Dump(PresentFields(fields))) == Ok(ToExpectation(ReadStatus(r)))
  {
    DumpedPresentField(fields, "status");
    DumpedPresentField(fields, "json_contains");
    DumpedPresentField(fields, "assertions");
    DumpedJsonValue(r.expectStatus);
    DumpedJsonValue(r.jsonContains);
    AssertionCasesAreImported(r.assertions);
    ExpectationFromCase(Dump(PresentFields(fields)), r, Dump(Arr(AssertionCases(r.assertions))).items);
  }

  /** The properties of a request document, whichever way it was built. */
  predicate AreRequestCaseFields(h: Host, fields: map<string, Json>, r: FlowRequest) {
    && "method" in fields && fields["method"] == Str(h.upper(r.verb))
    && "path" in fields && fields["path"] == Str(r.path)
    && "headers" in fields && fields["headers"] == CleanRecord(r.headers)
    && "query" in fields && fields["query"] == CleanRecord(r.query)
    && "json" in fields && fields["json"] == r.jsonBody
    && "expect" in fields && fields["expect"] == ExpectationCase(r)
    && "save" in fields && fields["save"] == CleanRecord(r.save)
  }

  lemma RequestCaseFields(h: Host, r: FlowRequest)
    ensures RequestCase(h, r).Obj? && AreRequestCaseFields(h, RequestCase(h, r).fields, r)
  {
  }

  lemma RequestFromCase(h: Host, v: Json, r: FlowRequest, e: Option<Expectation>)
    requires TrustedHost(h) && TrustedText(h) && IsValidRequest(r)
    requires Field(v, "method") == Str(h.upper(r.verb)) && Field(v, "path") == Str(r.path)
    requires CleanObject(Field(v, "headers")) == CleanObject(r.headers)
    requires CleanObject(Field(v, "query")) == CleanObject(r.query)
    requires CleanObject(Field(v, "save")) == CleanObject(r.save) && Field(v, "json") == r.jsonBody
    requires ImportExpectation(Field(v, "expect")) == Ok(e)
    ensures ImportRequest(h, v)
         == Ok(Request(h.upper(Trim(r.verb)), Trim(r.path), CleanObject(r.headers), CleanObject(r.query),
                       KeptOrUndefined(r.jsonBody), e, CleanObject(r.save)))
  {
    TrimTrims(r.verb);
    TrimTrims(r.path);
  }

  lemma DumpedCaseField(fields: map<string, Json>, key: string)
    requires key in fields
    ensures Field(Dump(Obj(fields)), key) == Dump(fields[key])
  {
    DumpKeepsFields(Obj(fields), key);
  }

  lemma ExpectationOfRequest(r: FlowRequest)
    requires IsTransportedRequest(r)
    ensures ImportExpectation(Dump(ExpectationCase(r))) == Ok(ToExpectation(ReadStatus(r)))
  {
    var entries := AssertionCases(r.assertions);
    ExpectationCaseIsImported(r, map["status" := Coalesce(r.expectStatus, Num(Finite(200.0))),
                                     "json_contains" := r.jsonContains,
                                     "assertions" := if entries == [] then Undefined else Arr(entries)]);
  }

  lemma RequestCaseIsImported(h: Host, r: FlowRequest, fields: map<string, Json>)
    requires TrustedHost(h) && TrustedText(h) && IsValidRequest(r) && IsTransportedRequest(r)
    requires AreRequestCaseFields(h, fields, r)
    ensures ImportRequest(h, Dump(Obj(fields))) == Ok(ToRequest(h, ReadStatus(r)))
  {
    var v := Dump(Obj(fields));
    DumpedCaseField(fields, "method");
    DumpedCaseField(fields, "path");
    DumpedCaseField(fields, "headers");
    DumpedCaseField(fields, "query");
    DumpedCaseField(fields, "json");
    DumpedCaseField(fields, "expect");
    DumpedCaseField(fields, "save");
    CleanedAnyway(r.headers);
    CleanedAnyway(r.query);
    CleanedAnyway(r.save);
    DumpedJsonValue(r.jsonBody);
    ExpectationOfRequest(r);
    RequestFromCase(h, v, r, ToExpectation(ReadStatus(r)));
  }

  lemma RequestDocumentIsImported(h: Host, r: FlowRequest)
    requires TrustedHost(h) && TrustedText(h) && IsValidRequest(r) && IsTransportedRequest(r)
    ensures ImportRequest(h, Dump(RequestCase(h, r))) == Ok(ToRequest(h, ReadStatus(r)))
  {
    RequestCaseFields(h, r);
    RequestCaseIsImported(h, r, RequestCase(h, r).fields);
  }

  // ---------- Configurations ----------

  lemma OptionalNameAgain(s: Option<string>)
    ensures TrimText(OptStr(OptionalTrimmed(s))).Ok?
    ensures OptionalText(TrimText(OptStr(OptionalTrimmed(s))).value) == OptionalTrimmed(s)
  {
    if s.Some? { TrimTrims(s.value); }
  }

  lemma WaitCaseIsImported(h: Host, k: NodeKind)
    requires k.WaitNode? && IsValidKind(k)
    ensures ImportWait(Dump(CaseConfig(h, k))) == Ok(ToConfig(h, k))
  {
    DumpKeepsFields(CaseConfig(h, k), "duration_ms");
  }

  lemma PollFromCase(h: Host, v: Json, k: NodeKind, request: Request)
    requires TrustedText(h) && k.PollNode? && IsPositive(k.timeoutSeconds) && IsPositive(k.intervalSeconds) && v.Obj?
    requires k.intervalSeconds.value <= k.timeoutSeconds.value
    requires Field(v, "timeout_ms") == Undefined && Field(v, "timeout_seconds") == Num(k.timeoutSeconds)
    requires Field(v, "interval_ms") == Undefined && Field(v, "interval_seconds") == Num(k.intervalSeconds)
    requires Field(v, "failure_message") == OptStr(OptionalTrimmed(k.failureMessage))
    requires ImportRequest(h, Field(v, "request")) == Ok(request)
    ensures ImportPoll(h, v) == Ok(PollUntil(request, Milliseconds(k.timeoutSeconds), Milliseconds(k.intervalSeconds),
                                             OptionalTrimmed(k.failureMessage)))
  {
    hide ImportRequest;
    OptionalNameAgain(k.failureMessage);
  }

  predicate ArePollCaseFields(h: Host, fields: map<string, Json>, k: NodeKind)
    requires k.PollNode?
  {
    && "timeout_ms" !in fields && "timeout_seconds" in fields && fields["timeout_seconds"] == Num(k.timeoutSeconds)
    && "interval_ms" !in fields && "interval_seconds" in fields && fields["interval_seconds"] == Num(k.intervalSeconds)
    && "failure_message" in fields && fields["failure_message"] == OptStr(OptionalTrimmed(k.failureMessage))
    && "request" in fields && fields["request"] == RequestCase(h, k.poll)
  }

  lemma PollCaseFields(h: Host, k: NodeKind)
    requires k.PollNode?
    ensures CaseConfig(h, k).Obj? && ArePollCaseFields(h, CaseConfig(h, k).fields, k)
  {
  }

  lemma DumpedPollCase(h: Host, fields: map<string, Json>, k: NodeKind)
    requires TrustedHost(h) && TrustedText(h) && k.PollNode?
    requires IsValidKind(k) && IsTransported(k) && ArePollCaseFields(h, fields, k)
    ensures ImportPoll(h, Dump(Obj(fields))) == Ok(ToConfig(h, ReadKind(k)))
  {
    RequestDocumentIsImported(h, k.poll);
    DumpKeepsFields(Obj(fields), "timeout_ms");
    DumpedCaseField(fields, "timeout_seconds");
    DumpKeepsFields(Obj(fields), "interval_ms");
    DumpedCaseField(fields, "interval_seconds");
    DumpedCaseField(fields, "failure_message");
    DumpedCaseField(fields, "request");
    PollFromCase(h, Dump(Obj(fields)), k, ToRequest(h, ReadStatus(k.poll)));
  }

  lemma PollCaseIsImported(h: Host, k: NodeKind)
    requires TrustedHost(h) && TrustedText(h) && k.PollNode? && IsValidKind(k) && IsTransported(k)
    ensures ImportPoll(h, Dump(CaseConfig(h, k))) == Ok(ToConfig(h, ReadKind(k)))
  {
    PollCaseFields(h, k);
    DumpedPollCase(h, CaseConfig(h, k).fields, k);
  }

  lemma SetVariableFromCase(h: Host, v: Json, k: NodeKind)
    requires k.SetVariableNode? && IsValidKind(k) && v.Obj?
    requires Field(v, "name") == Str(k.variableName) && Field(v, "value") == k.value
    requires Field(v, "from_step_id") == OptStr(OptionalTrimmed(k.fromStepId))
    requires Field(v, "path") == OptStr(OptionalTrimmed(k.valuePath))
    ensures ImportSetVariable(v) == Ok(ToConfig(h, k))
  {
    OptionalNameAgain(k.fromStepId);
    OptionalNameAgain(k.valuePath);
  }

  lemma SetVariableCaseIsImported(h: Host, k: NodeKind)
    requires k.SetVariableNode? && IsValidKind(k) && IsTransported(k)
    ensures ImportSetVariable(Dump(CaseConfig(h, k))) == Ok(ToConfig(h, k))
  {
    var fields := CaseConfig(h, k).fields;
    DumpedCaseField(fields, "name");
    DumpedCaseField(fields, "value");
    DumpedCaseField(fields, "from_step_id");
    DumpedCaseField(fields, "path");
    DumpedJsonValue(k.value);
    SetVariableFromCase(h, Dump(Obj(fields)), k);
  }

  lemma AssertFromCase(h: Host, v: Json, k: NodeKind)
    requires k.AssertNode? && IsValidKind(k) && v.Obj?
    requires Field(v, "source_step_id") == OptStr(OptionalTrimmed(k.sourceStepId))
    requires Field(v, "field_path") == Str(k.fieldPath) && Field(v, "operator") == k.operator
    requires Field(v, "expected_value") == ExpectedValue(k.expectedValue)
    ensures ImportAssert(v) == Ok(ToConfig(h, k))
  {
    OptionalNameAgain(k.sourceStepId);
  }

  lemma AssertCaseIsImported(h: Host, k: NodeKind)
    requires k.AssertNode? && IsValidKind(k) && IsTransported(k)
    ensures ImportAssert(Dump(CaseConfig(h, k))) == Ok(ToConfig(h, k))
  {
    var fields := CaseConfig(h, k).fields;
    DumpedCaseField(fields, "source_step_id");
    DumpedCaseField(fields, "field_path");
    DumpedCaseField(fields, "operator");
    DumpedCaseField(fields, "expected_value");
    DumpedJsonValue(k.operator);
    DumpedJsonValue(ExpectedValue(k.expectedValue));
    AssertFromCase(h, Dump(Obj(fields)), k);
  }

  // ---------- Steps ----------

  /** The properties of a step document, and no configuration but its own. */
  predicate AreCaseFields(h: Host, fields: map<string, Json>, n: FlowNode) {
    && !n.kind.OtherNode?
    && "id" in fields && fields["id"] == Str(n.id) && "name" in fields && fields["name"] == Str(n.name)
    && "type" in fields && fields["type"] == Str(KindName(n.kind))
    && CaseKey(n.kind) in fields && fields[CaseKey(n.kind)] == CaseConfig(h, n.kind)
    && forall k :: k in fields ==> k in {"id", "name", "type", CaseKey(n.kind)}
  }

  lemma TestCaseFields(h: Host, n: FlowNode)
    requires !n.kind.OtherNode?
    ensures TestCase(h, n).Obj? && AreCaseFields(h, TestCase(h, n).fields, n)
  {
  }

  /** The importer of each kind, on the configuration the older compiler writes for it. */
  lemma CaseConfigIsImported(h: Host, k: NodeKind)
    requires TrustedHost(h) && TrustedText(h) && IsValidKind(k) && IsTransported(k)
    ensures ImportKind(h, KindName(k), Dump(CaseConfig(h, k))) == Ok(ToConfig(h, ReadKind(k)))
  {
    match k
    case ApiNode(request) => RequestDocumentIsImported(h, request);
    case WaitNode(_) => WaitCaseIsImported(h, k);
    case PollNode(_, _, _, _) => PollCaseIsImported(h, k);
    case SetVariableNode(_, _, _, _) => SetVariableCaseIsImported(h, k);
    case AssertNode(_, _, _, _) => AssertCaseIsImported(h, k);
  }

  function ImportKind(h: Host, kind: string, v: Json): Result<Config, AdapterError> {
    if kind == "wait" then ImportWait(v)
    else if kind == "pollUntil" then ImportPoll(h, v)
    else if kind == "setVariable" then ImportSetVariable(v)
    else if kind == "assert" then ImportAssert(v)
    else
      var request :- ImportRequest(h, v);
      Ok(ApiRequest(request))
  }

  lemma ConfigFromCase(h: Host, v: Json, k: NodeKind)
    requires !k.OtherNode? && Field(v, "type") == Str(KindName(k))
    requires forall key :: key in CASE_KEYS ==> (Has(v, key) <==> key == CaseKey(k))
    ensures ImportConfig(h, v) == ImportKind(h, KindName(k), Field(v, CaseKey(k)))
  {
    assert Has(v, "wait") <==> k.WaitNode?;
    assert Has(v, "poll") <==> k.PollNode?;
    assert Has(v, "set_variable") <==> k.SetVariableNode?;
    assert Has(v, "assert") <==> k.AssertNode?;
    assert Has(v, "request") <==> k.ApiNode?;
  }

  lemma CaseConfigIsObject(h: Host, k: NodeKind)
    requires !k.OtherNode?
    ensures CaseConfig(h, k).Obj?
  {
  }

  lemma DumpedKeys(fields: map<string, Json>, key: string)
    requires key in fields ==> fields[key] != Undefined
    ensures Has(Dump(Obj(fields)), key) <==> key in fields
  {
  }

  lemma CaseKeys(h: Host, fields: map<string, Json>, n: FlowNode, key: string)
    requires AreCaseFields(h, fields, n) && key in CASE_KEYS
    ensures Has(Dump(Obj(fields)), key) <==> key == CaseKey(n.kind)
  {
    CaseConfigIsObject(h, n.kind);
    DumpedKeys(fields, key);
  }

  lemma ConfigIsImported(h: Host, fields: map<string, Json>, n: FlowNode)
    requires TrustedHost(h) && TrustedText(h) && IsValidKind(n.kind) && IsTransported(n.kind) && AreCaseFields(h, fields, n)
    ensures ImportConfig(h, Dump(Obj(fields))) == Ok(ToConfig(h, ReadKind(n.kind)))
  {
    var v := Dump(Obj(fields));
    DumpedCaseField(fields, CaseKey(n.kind));
    DumpedCaseField(fields, "type");
    forall key | key in CASE_KEYS ensures Has(v, key) <==> key == CaseKey(n.kind) {
      CaseKeys(h, fields, n, key);
    }
    ConfigFromCase(h, v, n.kind);
    CaseConfigIsImported(h, n.kind);
  }

  /** The settings the older compiler does not write take their defaults. */
  function PlainStep(h: Host, n: FlowNode): Step
    requires !n.kind.OtherNode?
  {
    var config := ToConfig(h, ReadKind(n.kind));
    Step(Trim(n.id), Str(TypeName(config) + "/v1"), Trim(n.name), config,
         if config.PollUntil? then config.timeoutMs else DEFAULT_STEP_TIMEOUT_MS, DEFAULT_RETRY, false)
  }

  lemma StepFromCase(h: Host, v: Json, n: FlowNode, index: nat)
    requires IsValidNode(n) && v.Obj? && Field(v, "id") == Str(n.id) && Field(v, "name") == Str(n.name)
    requires Field(v, "timeout_ms") == Undefined && Field(v, "retry_policy") == Undefined
    requires Field(v, "continue_on_failure") == Undefined
    requires ImportConfig(h, v) == Ok(ToConfig(h, ReadKind(n.kind)))
    ensures ImportStep(h, v, index) == Ok(PlainStep(h, n))
  {
  }

  lemma DumpedCase(h: Host, fields: map<string, Json>, n: FlowNode, index: nat)
    requires TrustedHost(h) && TrustedText(h) && IsValidNode(n) && IsTransported(n.kind) && AreCaseFields(h, fields, n)
    ensures ImportStep(h, Dump(Obj(fields)), index) == Ok(PlainStep(h, n))
  {
    ConfigIsImported(h, fields, n);
    DumpedCaseField(fields, "id");
    DumpedCaseField(fields, "name");
    DumpKeepsFields(Obj(fields), "timeout_ms");
    DumpKeepsFields(Obj(fields), "retry_policy");
    DumpKeepsFields(Obj(fields), "continue_on_failure");
    StepFromCase(h, Dump(Obj(fields)), n, index);
  }

  /**
   * Importing what the older compiler writes for a step gives the configuration the newer one compiles, except that
   * an expected status of `""` becomes 200.
   */
  lemma TestCaseIsImported(h: Host, n: FlowNode, index: nat)
    requires TrustedHost(h) && TrustedText(h) && IsValidNode(n) && IsTransported(n.kind)
    ensures ImportStep(h, Dump(TestCase(h, n)), index) == Ok(PlainStep(h, n))
  {
    TestCaseFields(h, n);
    DumpedCase(h, TestCase(h, n).fields, n, index);
  }

  /** Not a positive number other than `usual`, so that `usual` is what is meant by it. */
  predicate MeansPositive(v: Json, usual: real) {
    v.Num? && v.n.Finite? && v.n.value > 0.0 ==> v.n.value == usual
  }

  predicate MeansZero(v: Json) {
    v.Num? && v.n.Finite? && v.n.value >= 0.0 ==> v.n.value == 0.0
  }

  /** No retries: one attempt, no pause, under either spelling of the properties. */
  predicate MeansNoRetry(v: Json) {
    && MeansPositive(Coalesce(Field(v, "maxAttempts"), Field(v, "max_attempts")), 1.0)
    && MeansZero(Coalesce(Field(v, "backoffMs"), Field(v, "backoff_ms")))
  }

  /** A poll has its own timeout; the usual one of a wait step is another than that of the older compiler. */
  predicate MeansUsualTimeout(n: FlowNode) {
    n.kind.PollNode? || (MeansPositive(n.timeoutMs, 30000.0) && (n.kind.WaitNode? ==> !IsNullish(n.timeoutMs)))
  }

  predicate ExpectsBlank(k: NodeKind) {
    (k.ApiNode? && k.request.expectStatus == Str("")) || (k.PollNode? && k.poll.expectStatus == Str(""))
  }

  /** A node says nothing that the older compiler does not write or writes otherwise. */
  predicate SaysNothingElse(n: FlowNode) {
    && HasDefaultVersion(n) && !n.continueOnFailure && MeansNoRetry(n.retryPolicy) && MeansUsualTimeout(n)
    && !ExpectsBlank(n.kind)
  }

  lemma RetryIsUsualIff(v: Json)
    ensures NormalizeRetry(ImportRetry(Coalesce(Coalesce(v, PlainRetry()), PlainRetry()))) == DEFAULT_RETRY
       <==> MeansNoRetry(v)
  {
    assert Field(PlainRetry(), "maxAttempts") == Num(Finite(1.0)) && Field(PlainRetry(), "backoffMs") == Num(Finite(0.0));
  }

  lemma TimeoutIsUsualIff(h: Host, n: FlowNode)
    requires IsValidNode(n) && !n.kind.PollNode?
    ensures NormalizeStep(ToStep(h, MigrateNode(n))).timeoutMs == DEFAULT_STEP_TIMEOUT_MS <==> MeansUsualTimeout(n)
  {
  }

  lemma ReadKindIffBlank(h: Host, k: NodeKind)
    requires !k.OtherNode?
    ensures ToConfig(h, ReadKind(k)) == ToConfig(h, k) <==> !ExpectsBlank(k)
  {
  }

  lemma ConfigTellsKind(h: Host, k: NodeKind)
    requires TrustedHost(h) && IsValidKind(k) && IsTransported(k)
    ensures TypeName(ToConfig(h, ReadKind(k))) == KindName(k) == TypeName(ToConfig(h, k))
    ensures k.PollNode? ==>
              ToConfig(h, k).PollUntil? && ToConfig(h, ReadKind(k)).PollUntil?
              && ToConfig(h, ReadKind(k)).timeoutMs == ToConfig(h, k).timeoutMs > 0.0
  {
    CompiledConfigIsBuilt(h, k);
  }

  lemma CompiledSettings(h: Host, n: FlowNode)
    requires TrustedHost(h) && IsValidNode(n) && IsTransported(n.kind)
    ensures var s := NormalizeStep(ToStep(h, MigrateNode(n)));
            && s.id == Trim(n.id) && s.name == Trim(n.name) && s.config == ToConfig(h, n.kind)
            && (s.version == Str(KindName(n.kind) + "/v1") <==> HasDefaultVersion(n))
            && (s.retryPolicy == DEFAULT_RETRY <==> MeansNoRetry(n.retryPolicy))
            && s.continueOnFailure == n.continueOnFailure
            && (n.kind.PollNode? ==> s.timeoutMs == ToConfig(h, n.kind).timeoutMs)
            && (!n.kind.PollNode? ==> (s.timeoutMs == DEFAULT_STEP_TIMEOUT_MS <==> MeansUsualTimeout(n)))
  {
    ConfigTellsKind(h, n.kind);
    RetryIsUsualIff(n.retryPolicy);
    TrimTrims(n.name);
    if n.kind.PollNode? {
      assert ToConfig(h, n.kind).timeoutMs > 0.0;
    } else {
      TimeoutIsUsualIff(h, n);
    }
  }

  /** The two compilers agree on a step exactly if it says nothing that the older one does not write as well. */
  lemma CompilersAgreeIff(h: Host, n: FlowNode, index: nat)
    requires TrustedHost(h) && TrustedText(h) && IsValidNode(n) && IsTransported(n.kind)
    ensures ImportStep(h, Dump(TestCase(h, n)), index) == Ok(NormalizeStep(ToStep(h, MigrateNode(n))))
       <==> SaysNothingElse(n)
  {
    TestCaseIsImported(h, n, index);
    ConfigTellsKind(h, n.kind);
    ReadKindIffBlank(h, n.kind);
    CompiledSettings(h, n);
  }

  /** They never agree on a wait step without a timeout of its own: one gives it a minute, the other half of that. */
  lemma WaitDefaultsDiffer(h: Host, n: FlowNode, index: nat)
    requires TrustedHost(h) && TrustedText(h) && IsValidNode(n) && n.kind.WaitNode? && IsNullish(n.timeoutMs)
    ensures var older := ImportStep(h, Dump(TestCase(h, n)), index); older.Ok? && older.value.timeoutMs == 30000.0
    ensures NormalizeStep(ToStep(h, MigrateNode(n))).timeoutMs == 60000.0
  {
    TestCaseIsImported(h, n, index);
  }

  // ---------- Orders ----------

  lemma ChainAt(order: seq<string>, edges: seq<Edge>, i: nat)
    requires IsChain(order, edges) && i < |order|
    ensures Sources(edges, order[i]) == if i == 0 then [] else [order[i - 1]]
  {
  }

  lemma SamePlace(order: seq<string>, other: seq<string>, edges: seq<Edge>, i: nat, k: nat)
    requires Distinct(other) && i < |order| == |other| && k < |other| && order[i] == other[k]
    requires Sources(edges, order[i]) == if i == 0 then [] else [order[i - 1]]
    requires Sources(edges, other[k]) == if k == 0 then [] else [other[k - 1]]
    requires i > 0 ==> order[i - 1] == other[i - 1]
    ensures i == k
  {
    if i > 0 && k > 0 {
      assert [order[i - 1]][0] == [other[k - 1]][0];
    }
  }

  lemma {:induction false} ChainsAgree(order: seq<string>, other: seq<string>, edges: seq<Edge>, i: nat)
    requires IsChain(order, edges) && IsChain(other, edges) && Distinct(other)
    requires (forall x :: x in order ==> x in other) && i < |order| == |other|
    ensures order[i] == other[i]
    decreases i
  {
    assert order[i] in other;
    var k :| 0 <= k < |other| && other[k] == order[i];
    if i > 0 {
      ChainsAgree(order, other, edges, i - 1);
    }
    ChainAt(order, edges, i);
    ChainAt(other, edges, k);
    SamePlace(order, other, edges, i, k);
  }

  /** On a single chain both sorts give the one topological order there is. */
  lemma ChainHasOneOrder(f: Flow, order: seq<string>, other: seq<string>)
    requires IsUnbranchedOrder(order, f) && IsUnbranchedOrder(other, f) && |f.edges| == |f.nodes| - 1
    ensures order == other
  {
    OrderMembers(order, IdsOf(f.nodes), f.edges);
    OrderMembers(other, IdsOf(f.nodes), f.edges);
    if order != [] {
      ChainIffEdgeCount(order, f);
      ChainIffEdgeCount(other, f);
      forall i | 0 <= i < |order| ensures order[i] == other[i] { ChainsAgree(order, other, f.edges, i); }
    }
  }
}
