/** What importing an exported plan gives back. */
module YamlRoundTrip {
  import opened Wrappers
  import opened Json
  import opened Text
  import opened Sorting
  import opened ExecutionPlans
  import opened YamlAdapter

  /** What is trusted of the host's upper case. */
  ghost predicate TrustedHost(h: Host) {
    && (forall s :: h.upper(h.upper(s)) == h.upper(s))
    && (forall s :: IsName(s) ==> IsName(h.upper(s)))
  }

  // ---------- What import builds ----------

  predicate IsName(s: string) {
    s != "" && IsTrimmed(s)
  }

  predicate IsOptionalName(s: Option<string>) {
    s.Some? ==> IsName(s.value)
  }

  predicate IsOptionalYaml(v: Json) {
    v.Undefined? || IsYaml(v)
  }

  predicate IsBuiltAssertion(a: Assertion) {
    && IsName(a.fieldPath) && IsTruthy(a.operator) && IsYaml(a.operator)
    && IsOptionalYaml(a.expectedValue) && a.expectedValue != Str("")
  }

  predicate IsBuiltExpectation(e: Expectation) {
    && IsOptionalYaml(e.status) && !e.status.Null? && (e.status.Undefined? || IsKept(e.status))
    && IsOptionalYaml(e.jsonContains) && (e.jsonContains.Undefined? || IsKept(e.jsonContains))
    && e != Expectation(Undefined, Undefined, [])
    && forall i :: 0 <= i < |e.assertions| ==> IsBuiltAssertion(e.assertions[i])
  }

  predicate IsCleanYaml(v: Json) {
    IsClean(v) && IsOptionalYaml(v)
  }

  predicate IsBuiltRequest(h: Host, r: Request) {
    && IsName(r.verb) && h.upper(r.verb) == r.verb && IsName(r.path)
    && IsCleanYaml(r.headers) && IsCleanYaml(r.query) && IsCleanYaml(r.save)
    && IsOptionalYaml(r.json) && (r.json.Undefined? || IsKept(r.json))
    && (r.expectation.Some? ==> IsBuiltExpectation(r.expectation.value))
  }

  predicate IsBuiltConfig(h: Host, c: Config) {
    match c
    case ApiRequest(request) => IsBuiltRequest(h, request)
    case Wait(durationMs) => durationMs > 0.0
    case PollUntil(request, timeoutMs, intervalMs, message) =>
      IsBuiltRequest(h, request) && 0.0 < intervalMs <= timeoutMs && IsOptionalName(message)
    case SetVariable(name, value, from, path) =>
      IsName(name) && IsOptionalYaml(value) && IsOptionalName(from) && IsOptionalName(path)
    case Assert(source, fieldPath, operator, expected) =>
      && IsOptionalName(source) && IsName(fieldPath) && IsOptionalYaml(operator)
      && IsOptionalYaml(expected) && expected != Str("")
    case Sequence(_) => false
  }

  predicate IsBuiltRetry(r: RetryPolicy) {
    r.maxAttempts > 0.0 && r.backoffMs >= 0.0
  }

  predicate IsBuiltStep(h: Host, s: Step) {
    && IsName(s.id) && IsName(s.name) && s.timeoutMs > 0.0 && IsBuiltRetry(s.retryPolicy)
    && s.version == Str(TypeName(s.config) + "/v1")
    && IsBuiltConfig(h, s.config)
    && (s.config.PollUntil? ==> s.timeoutMs == s.config.timeoutMs)
  }

  predicate AreBuiltSteps(h: Host, steps: seq<Step>) {
    forall i :: 0 <= i < |steps| ==> IsBuiltStep(h, steps[i])
  }

  lemma FieldIsYaml(v: Json, key: string)
    requires IsYaml(v)
    ensures IsOptionalYaml(Field(v, key))
  {
  }

  lemma CleanFieldIsYaml(v: Json, key: string)
    requires IsYaml(v)
    ensures IsCleanYaml(CleanObject(Field(v, key)))
  {
    FieldIsYaml(v, key);
    CleanObjectCleans(Field(v, key));
    if CleanObject(Field(v, key)) != Undefined {
      CleanObjectKeepsYaml(Field(v, key));
    }
  }

  lemma TrimTextIsName(v: Json)
    ensures TrimText(v).Ok? && TrimText(v).value != "" ==> IsName(TrimText(v).value)
  {
    if v.Str? { TrimTrims(v.s); }
  }

  lemma {:induction false} ImportedAssertionsAreBuilt(items: seq<Json>)
    requires IsYaml(Arr(items)) && ImportAssertions(items).Ok?
    ensures forall i :: 0 <= i < |ImportAssertions(items).value| ==> IsBuiltAssertion(ImportAssertions(items).value[i])
    decreases |items|
  {
    if items != [] {
      assert IsYaml(items[0]);
      assert IsYaml(Arr(items[1..])) by {
        assert forall i :: 0 <= i < |items[1..]| ==> items[1..][i] == items[i + 1];
      }
      ImportedAssertionsAreBuilt(items[1..]);
      TrimTextIsName(Field(items[0], "field_path"));
      FieldIsYaml(items[0], "operator");
      FieldIsYaml(items[0], "expected_value");
    }
  }

  lemma ImportedExpectationIsBuilt(v: Json)
    requires IsOptionalYaml(v) && ImportExpectation(v).Ok?
    ensures ImportExpectation(v).value.Some? ==> IsBuiltExpectation(ImportExpectation(v).value.value)
  {
    var list := Coalesce(Field(v, "assertions"), Arr([]));
    if v.Obj? {
      FieldIsYaml(v, "status");
      FieldIsYaml(v, "json_contains");
      FieldIsYaml(v, "assertions");
    }
    assert IsYaml(list);
    ImportedAssertionsAreBuilt(list.items);
  }

  lemma ImportedRequestIsBuilt(h: Host, v: Json)
    requires TrustedHost(h) && IsOptionalYaml(v) && ImportRequest(h, v).Ok?
    ensures IsBuiltRequest(h, ImportRequest(h, v).value)
  {
    assert v.Obj? || v.Foreign?;
    TrimTextIsName(Field(v, "method"));
    TrimTextIsName(Field(v, "path"));
    FieldIsYaml(v, "expect");
    ImportedExpectationIsBuilt(Field(v, "expect"));
    CleanFieldIsYaml(v, "headers");
    CleanFieldIsYaml(v, "query");
    CleanFieldIsYaml(v, "save");
    FieldIsYaml(v, "json");
  }

  lemma ImportedConfigIsBuilt(h: Host, v: Json)
    requires TrustedHost(h) && IsYaml(v) && ImportConfig(h, v).Ok?
    ensures IsBuiltConfig(h, ImportConfig(h, v).value)
  {
    if Has(v, "wait") {
    } else if Has(v, "poll") {
      var w := Field(v, "poll");
      FieldIsYaml(w, "request");
      ImportedRequestIsBuilt(h, Field(w, "request"));
      TrimTextIsName(Field(w, "failure_message"));
    } else if Field(v, "type") == Str("setVariable") && Has(v, "set_variable") {
      var w := Field(v, "set_variable");
      FieldIsYaml(w, "value");
      TrimTextIsName(Field(w, "name"));
      TrimTextIsName(Field(w, "from_step_id"));
      TrimTextIsName(Field(w, "path"));
    } else if Field(v, "type") == Str("assert") && Has(v, "assert") {
      var w := Field(v, "assert");
      FieldIsYaml(w, "operator");
      FieldIsYaml(w, "expected_value");
      TrimTextIsName(Field(w, "field_path"));
      TrimTextIsName(Field(w, "source_step_id"));
    } else {
      FieldIsYaml(v, "request");
      ImportedRequestIsBuilt(h, Field(v, "request"));
    }
  }

  lemma {:induction false} DecimalEndsInDigit(n: nat)
    ensures Decimal(n) != "" && !IsSpace(Decimal(n)[|Decimal(n)| - 1])
  {
  }

  lemma {:induction false} PadStartKeepsEnd(s: string, n: nat)
    requires s != ""
    ensures PadStart(s, n) != "" && PadStart(s, n)[|PadStart(s, n)| - 1] == s[|s| - 1]
    decreases n - |s|
  {
    if |s| < n {
      PadStartKeepsEnd("0" + s, n);
    }
  }

  lemma DefaultIdIsName(index: nat)
    ensures IsName(DefaultId(index))
  {
    DecimalEndsInDigit(index + 1);
    PadStartKeepsEnd(Decimal(index + 1), 3);
    assert DefaultId(index)[0] == 's';
  }

  lemma ImportedStepIsBuilt(h: Host, v: Json, index: nat)
    requires TrustedHost(h) && IsYaml(v) && ImportStep(h, v, index).Ok?
    ensures IsBuiltStep(h, ImportStep(h, v, index).value)
  {
    TrimTextIsName(Field(v, "id"));
    TrimTextIsName(Field(v, "name"));
    DefaultIdIsName(index);
    ImportedConfigIsBuilt(h, v);
  }

  lemma {:induction false} ImportedStepsAreBuilt(h: Host, items: seq<Json>, index: nat)
    requires TrustedHost(h) && IsYaml(Arr(items)) && ImportSteps(h, items, index).Ok?
    ensures AreBuiltSteps(h, ImportSteps(h, items, index).value)
    decreases |items|
  {
    if items != [] {
      assert IsYaml(items[0]);
      assert IsYaml(Arr(items[1..])) by {
        assert forall i :: 0 <= i < |items[1..]| ==> items[1..][i] == items[i + 1];
      }
      ImportedStepIsBuilt(h, items[0], index);
      ImportedStepsAreBuilt(h, items[1..], index + 1);
    }
  }

  // ---------- What export and import make of a built plan ----------

  /** An operator or an expected value that is an empty array does not survive `cleanObject`. */
  function RepairAssertion(a: Assertion): Option<Assertion> {
    if IsKept(a.operator) then
      Some(Assertion(a.fieldPath, Dump(a.operator), Dump(KeptOrUndefined(a.expectedValue))))
    else None
  }

  function RepairAssertions(assertions: seq<Assertion>): seq<Assertion> {
    if assertions == [] then []
    else
      var first := RepairAssertion(assertions[0]);
      var rest := RepairAssertions(assertions[1..]);
      if first.Some? then [first.value] + rest else rest
  }

  /** A missing expected status comes back as 200. */
  function RepairExpectation(e: Option<Expectation>): Expectation {
    var given := e.GetOr(Expectation(Undefined, Undefined, []));
    Expectation(if given.status.Undefined? then Num(Finite(200.0)) else Dump(given.status), Dump(given.jsonContains),
                RepairAssertions(given.assertions))
  }

  function RepairRequest(r: Request): Request {
    Request(r.verb, r.path, Dump(r.headers), Dump(r.query), Dump(r.json),
            Some(RepairExpectation(r.expectation)), Dump(r.save))
  }

  function RepairConfig(c: Config): Config {
    match c
    case ApiRequest(request) => ApiRequest(RepairRequest(request))
    case PollUntil(request, timeoutMs, intervalMs, message) =>
      PollUntil(RepairRequest(request), timeoutMs, intervalMs, message)
    case SetVariable(name, value, from, path) => SetVariable(name, Dump(value), from, path)
    case Assert(source, fieldPath, operator, expected) => Assert(source, fieldPath, Dump(operator), Dump(expected))
    case _ => c
  }

  function RepairStep(s: Step): Step {
    s.(config := RepairConfig(s.config))
  }

  function RepairSteps(steps: seq<Step>): seq<Step> {
    if steps == [] then [] else [RepairStep(steps[0])] + RepairSteps(steps[1..])
  }

  lemma DumpedField(fields: map<string, Json>, key: string)
    ensures Field(Dump(CleanFields(fields)), key)
         == if key in fields && IsKept(fields[key]) then Dump(fields[key]) else Undefined
    ensures Has(Dump(CleanFields(fields)), key) <==> key in fields && IsKept(fields[key])
  {
    CleanedField(fields, key);
    DumpKeepsFields(CleanFields(fields), key);
  }

  lemma DumpOptional(v: Json)
    requires IsOptionalYaml(v)
    ensures IsOptionalYaml(Dump(v)) && IsPlain(Dump(v)) && (Dump(v) == v <==> IsPlain(v))
    ensures (IsKept(Dump(v)) <==> IsKept(v)) && (IsTruthy(Dump(v)) <==> IsTruthy(v))
    ensures (Dump(v).Undefined? <==> v.Undefined?) && (Dump(v).Null? <==> v.Null?)
  {
    if !v.Undefined? {
      DumpIsIdentityIff(v);
      DumpIsPlainYaml(v);
    }
  }

  lemma DumpClean(v: Json)
    requires IsCleanYaml(v)
    ensures IsCleanYaml(Dump(v)) && CleanObject(Dump(v)) == Dump(v)
  {
    DumpOptional(v);
    if v.Obj? {
      forall k | k in v.fields ensures IsKept(Dump(v.fields[k])) { DumpIsPlainYaml(v.fields[k]); }
      assert Dump(v).fields.Keys == v.fields.Keys;
    }
    CleanObjectCleans(Dump(v));
  }

  lemma ReimportedAssertion(a: Assertion)
    requires IsBuiltAssertion(a)
    ensures ImportAssertion(Dump(ExportAssertion(a))) == Ok(RepairAssertion(a))
  {
    var fields := AssertionFields(a);
    DumpedField(fields, "field_path");
    DumpedField(fields, "operator");
    DumpedField(fields, "expected_value");
    DumpOptional(a.operator);
    DumpOptional(a.expectedValue);
    TrimTrims(a.fieldPath);
  }

  lemma {:induction false} ImportAssertionsOneByOne(docs: seq<Json>, assertions: seq<Assertion>)
    requires |docs| == |assertions|
    requires forall i :: 0 <= i < |docs| ==> ImportAssertion(docs[i]) == Ok(RepairAssertion(assertions[i]))
    ensures ImportAssertions(docs) == Ok(RepairAssertions(assertions))
    decreases |docs|
  {
    if docs != [] {
      ImportAssertionsOneByOne(docs[1..], assertions[1..]);
    }
  }

  lemma {:induction false} ExportAssertionsOneByOne(assertions: seq<Assertion>, i: nat)
    requires i < |assertions|
    ensures |ExportAssertions(assertions)| == |assertions|
    ensures ExportAssertions(assertions)[i] == ExportAssertion(assertions[i])
    decreases |assertions|
  {
    ExportAssertionsLength(assertions);
    if i > 0 {
      ExportAssertionsOneByOne(assertions[1..], i - 1);
    }
  }

  lemma ReimportedAssertions(assertions: seq<Assertion>)
    requires forall i :: 0 <= i < |assertions| ==> IsBuiltAssertion(assertions[i])
    ensures ImportAssertions(Dump(Arr(ExportAssertions(assertions))).items) == Ok(RepairAssertions(assertions))
  {
    var docs := Dump(Arr(ExportAssertions(assertions))).items;
    ExportAssertionsLength(assertions);
    forall i | 0 <= i < |docs| ensures ImportAssertion(docs[i]) == Ok(RepairAssertion(assertions[i])) {
      ExportAssertionsOneByOne(assertions, i);
      ReimportedAssertion(assertions[i]);
    }
    ImportAssertionsOneByOne(docs, assertions);
  }

  lemma {:induction false} ExportAssertionsLength(assertions: seq<Assertion>)
    ensures |ExportAssertions(assertions)| == |assertions|
    decreases |assertions|
  {
    if assertions != [] { ExportAssertionsLength(assertions[1..]); }
  }

  /** Import of an expectation in terms of the three properties it looks at. */
  lemma ExpectationFromFields(v: Json, status: Json, jsonContains: Json, items: seq<Json>, assertions: seq<Assertion>)
    requires Field(v, "status") == status && Field(v, "json_contains") == jsonContains
    requires Field(v, "assertions") == Arr(items) || (Field(v, "assertions") == Undefined && items == [])
    requires ImportAssertions(items) == Ok(assertions)
    requires !status.Null? && (status.Undefined? || IsKept(status)) && (jsonContains.Undefined? || IsKept(jsonContains))
    ensures ImportExpectation(v) == Ok(Some(Expectation(
              if status.Undefined? then Num(Finite(200.0)) else status, jsonContains, assertions)))
  {
  }

  lemma ExportedExpectationFields(e: Expectation)
    requires IsBuiltExpectation(e)
    ensures var v := Dump(ExportExpectation(Some(e)));
            var items := Dump(Arr(ExportAssertions(e.assertions))).items;
            && IsKept(ExportExpectation(Some(e)))
            && Field(v, "status") == Dump(e.status) && Field(v, "json_contains") == Dump(e.jsonContains)
            && (Field(v, "assertions") == Arr(items) || (Field(v, "assertions") == Undefined && items == []))
  {
    var fields := ExpectationFields(e);
    DumpedField(fields, "status");
    DumpedField(fields, "json_contains");
    DumpedField(fields, "assertions");
    ExportAssertionsLength(e.assertions);
    CleanedField(fields, "status");
    CleanedField(fields, "json_contains");
    CleanedField(fields, "assertions");
  }

  /** The exported expectation as the request's document holds it. */
  function ExpectationDocument(e: Option<Expectation>): Json {
    if e.Some? then Dump(ExportExpectation(e)) else Undefined
  }

  lemma ReimportedExpectation(e: Option<Expectation>)
    requires e.Some? ==> IsBuiltExpectation(e.value)
    ensures ImportExpectation(ExpectationDocument(e)) == Ok(Some(RepairExpectation(e)))
  {
    if e.Some? {
      ExportedExpectationFields(e.value);
      ReimportedAssertions(e.value.assertions);
      DumpOptional(e.value.status);
      DumpOptional(e.value.jsonContains);
      ExpectationFromFields(Dump(ExportExpectation(e)), Dump(e.value.status), Dump(e.value.jsonContains),
                            Dump(Arr(ExportAssertions(e.value.assertions))).items, RepairAssertions(e.value.assertions));
    } else {
      ExpectationFromFields(Undefined, Undefined, Undefined, [], []);
    }
  }

  predicate AreRequestFields(fields: map<string, Json>, r: Request) {
    && "method" in fields && fields["method"] == Str(r.verb)
    && "path" in fields && fields["path"] == Str(r.path)
    && "headers" in fields && fields["headers"] == CleanObject(r.headers)
    && "query" in fields && fields["query"] == CleanObject(r.query)
    && "json" in fields && fields["json"] == r.json
    && "expect" in fields && fields["expect"] == ExportExpectation(r.expectation)
    && "save" in fields && fields["save"] == CleanObject(r.save)
  }

  lemma RequestFieldsAre(r: Request)
    ensures AreRequestFields(RequestFields(r), r)
  {
  }

  lemma DumpedCleanField(fields: map<string, Json>, key: string, v: Json)
    requires key in fields && fields[key] == CleanObject(v) && IsCleanYaml(v)
    ensures Field(Dump(CleanFields(fields)), key) == Dump(v)
  {
    DumpedField(fields, key);
    CleanObjectCleans(v);
  }

  lemma DumpedKeptField(fields: map<string, Json>, key: string, v: Json)
    requires key in fields && fields[key] == v && (v.Undefined? || IsKept(v))
    ensures Field(Dump(CleanFields(fields)), key) == Dump(v)
  {
    DumpedField(fields, key);
  }

  lemma ExportedRequestFields(h: Host, r: Request, fields: map<string, Json>)
    requires IsBuiltRequest(h, r) && AreRequestFields(fields, r)
    ensures var v := Dump(CleanFields(fields));
            && Field(v, "method") == Str(r.verb) && Field(v, "path") == Str(r.path)
            && Field(v, "headers") == Dump(r.headers) && Field(v, "query") == Dump(r.query)
            && Field(v, "save") == Dump(r.save)
            && Field(v, "json") == Dump(r.json) && Field(v, "expect") == ExpectationDocument(r.expectation)
    ensures CleanFields(fields).Obj?
  {
    DumpedKeptField(fields, "method", Str(r.verb));
    DumpedKeptField(fields, "path", Str(r.path));
    DumpedCleanField(fields, "headers", r.headers);
    DumpedCleanField(fields, "query", r.query);
    DumpedKeptField(fields, "json", r.json);
    DumpedCleanField(fields, "save", r.save);
    DumpedField(fields, "expect");
    CleanedField(fields, "method");
    if r.expectation.Some? { ExportedExpectationFields(r.expectation.value); }
  }

  /** Import of a request in terms of what it looks at, given in normal form. */
  lemma RequestFromParts(h: Host, v: Json, r: Request)
    requires IsName(r.verb) && h.upper(r.verb) == r.verb && IsName(r.path) && (r.json.Undefined? || IsKept(r.json))
    requires Field(v, "method") == Str(r.verb) && Field(v, "path") == Str(r.path) && Field(v, "json") == r.json
    requires CleanObject(Field(v, "headers")) == r.headers && CleanObject(Field(v, "query")) == r.query
    requires CleanObject(Field(v, "save")) == r.save && ImportExpectation(Field(v, "expect")) == Ok(r.expectation)
    ensures ImportRequest(h, v) == Ok(r)
  {
    TrimTrims(r.verb);
    TrimTrims(r.path);
  }

  lemma RequestFromFields(h: Host, v: Json, r: Request)
    requires IsBuiltRequest(h, r)
    requires Field(v, "method") == Str(r.verb) && Field(v, "path") == Str(r.path)
    requires Field(v, "headers") == Dump(r.headers) && Field(v, "query") == Dump(r.query) && Field(v, "save") == Dump(r.save)
    requires Field(v, "json") == Dump(r.json) && Field(v, "expect") == ExpectationDocument(r.expectation)
    ensures ImportRequest(h, v) == Ok(RepairRequest(r))
  {
    DumpClean(r.headers);
    DumpClean(r.query);
    DumpClean(r.save);
    DumpOptional(r.json);
    ReimportedExpectation(r.expectation);
    RequestFromParts(h, v, RepairRequest(r));
  }

  lemma ReimportedRequest(h: Host, r: Request)
    requires IsBuiltRequest(h, r)
    ensures ExportRequest(r).Obj? && ImportRequest(h, Dump(ExportRequest(r))) == Ok(RepairRequest(r))
  {
    RequestFieldsAre(r);
    ExportedRequestFields(h, r, RequestFields(r));
    RequestFromFields(h, Dump(ExportRequest(r)), r);
  }

  // ---------- Steps ----------

  predicate AreStepFields(fields: map<string, Json>, s: Step) {
    && "id" in fields && fields["id"] == Str(s.id)
    && "type" in fields && fields["type"] == Str(TypeName(s.config))
    && "name" in fields && fields["name"] == Str(s.name)
    && "timeout_ms" in fields && fields["timeout_ms"] == Num(Finite(s.timeoutMs))
    && "retry_policy" in fields && fields["retry_policy"] == ExportRetry(s.retryPolicy)
    && "continue_on_failure" in fields
    && fields["continue_on_failure"] == (if s.continueOnFailure then Bool(true) else Undefined)
    && HasOneConfig(fields, s.config)
  }

  /** Of the properties that tell the kinds of steps apart, only the step's own is there. */
  predicate HasOneConfig(fields: map<string, Json>, c: Config) {
    && ("wait" in fields <==> c.Wait?) && ("poll" in fields <==> c.PollUntil?)
    && ("set_variable" in fields <==> c.SetVariable?) && ("assert" in fields <==> c.Assert?)
    && ("request" in fields <==> c.ApiRequest?)
    && ConfigKey(c) in fields && fields[ConfigKey(c)] == ExportConfig(c)
  }

  lemma StepFieldsAre(s: Step)
    ensures AreStepFields(StepFields(s), s)
  {
  }

  /** What import reads of the exported step, beside its configuration. */
  predicate ReadsBase(v: Json, s: Step) {
    && v.Obj?
    && Field(v, "id") == Str(s.id) && Field(v, "name") == Str(s.name) && Field(v, "type") == Str(TypeName(s.config))
    && Field(v, "timeout_ms") == Num(Finite(s.timeoutMs))
    && ImportRetry(Field(v, "retry_policy")) == s.retryPolicy
    && (Field(v, "continue_on_failure") == Bool(true) <==> s.continueOnFailure)
  }

  predicate ReadsConfig(v: Json, c: Config) {
    && (Has(v, "wait") <==> c.Wait?) && (Has(v, "poll") <==> c.PollUntil?)
    && (Has(v, "set_variable") <==> c.SetVariable?) && (Has(v, "assert") <==> c.Assert?)
    && (Has(v, "request") <==> c.ApiRequest?)
    && Field(v, ConfigKey(c)) == Dump(ExportConfig(c))
  }

  lemma ReimportedRetry(r: RetryPolicy)
    requires IsBuiltRetry(r)
    ensures ImportRetry(Dump(ExportRetry(r))) == r
    ensures ExportRetry(r).Undefined? || IsKept(ExportRetry(r))
  {
    var v := ExportRetry(r);
    if !v.Undefined? {
      DumpKeepsFields(v, "max_attempts");
      DumpKeepsFields(v, "backoff_ms");
      DumpKeepsFields(v, "maxAttempts");
      DumpKeepsFields(v, "backoffMs");
    }
  }

  lemma ExportedBase(s: Step, fields: map<string, Json>)
    requires AreStepFields(fields, s) && IsName(s.id) && IsName(s.name) && IsBuiltRetry(s.retryPolicy)
    ensures ReadsBase(Dump(CleanFields(fields)), s)
  {
    DumpedKeptField(fields, "id", Str(s.id));
    DumpedKeptField(fields, "name", Str(s.name));
    DumpedKeptField(fields, "type", Str(TypeName(s.config)));
    DumpedKeptField(fields, "timeout_ms", Num(Finite(s.timeoutMs)));
    DumpedField(fields, "retry_policy");
    ReimportedRetry(s.retryPolicy);
    DumpedField(fields, "continue_on_failure");
    CleanedField(fields, "id");
  }

  lemma ExportedConfigIsObject(h: Host, c: Config)
    requires IsBuiltConfig(h, c)
    ensures ExportConfig(c).Obj?
  {
    if c.ApiRequest? { ReimportedRequest(h, c.request); }
  }

  lemma ExportedConfig(h: Host, c: Config, fields: map<string, Json>)
    requires HasOneConfig(fields, c) && IsBuiltConfig(h, c)
    ensures ReadsConfig(Dump(CleanFields(fields)), c)
  {
    ExportedConfigIsObject(h, c);
    DumpedField(fields, "wait");
    DumpedField(fields, "poll");
    DumpedField(fields, "set_variable");
    DumpedField(fields, "assert");
    DumpedField(fields, "request");
  }

  lemma ReimportedName(o: Option<string>)
    requires IsOptionalName(o)
    ensures TrimText(OptStr(o)).Ok? && OptionalText(TrimText(OptStr(o)).value) == o
  {
    if o.Some? { TrimTrims(o.value); }
  }

  /** A configuration object with given properties, dumped. */
  lemma DumpedObjectField(fields: map<string, Json>, key: string, v: Json)
    requires key in fields && fields[key] == v
    ensures Field(Dump(Obj(fields)), key) == Dump(v)
  {
    DumpKeepsFields(Obj(fields), key);
  }

  lemma ReimportedWait(c: Config)
    requires c.Wait? && c.durationMs > 0.0
    ensures ImportWait(Dump(ExportConfig(c))) == Ok(c)
  {
    DumpedObjectField(ExportConfig(c).fields, "duration_ms", Num(Finite(c.durationMs)));
  }

  lemma ReimportedSetVariable(h: Host, c: Config)
    requires c.SetVariable? && IsBuiltConfig(h, c)
    ensures ImportSetVariable(Dump(ExportConfig(c))) == Ok(RepairConfig(c))
  {
    var fields := ExportConfig(c).fields;
    DumpedObjectField(fields, "name", Str(c.name));
    DumpedObjectField(fields, "value", c.value);
    DumpedObjectField(fields, "from_step_id", OptStr(c.fromStepId));
    DumpedObjectField(fields, "path", OptStr(c.path));
    TrimTrims(c.name);
    ReimportedName(c.fromStepId);
    ReimportedName(c.path);
  }

  lemma ReimportedAssert(h: Host, c: Config)
    requires c.Assert? && IsBuiltConfig(h, c)
    ensures ImportAssert(Dump(ExportConfig(c))) == Ok(RepairConfig(c))
  {
    var fields := ExportConfig(c).fields;
    DumpedObjectField(fields, "source_step_id", OptStr(c.sourceStepId));
    DumpedObjectField(fields, "field_path", Str(c.fieldPath));
    DumpedObjectField(fields, "operator", c.operator);
    DumpedObjectField(fields, "expected_value", c.expectedValue);
    TrimTrims(c.fieldPath);
    ReimportedName(c.sourceStepId);
  }

  lemma PollFromFields(h: Host, v: Json, c: Config)
    requires c.PollUntil? && IsBuiltConfig(h, c) && v.Obj?
    requires Field(v, "timeout_ms") == Num(Finite(c.timeoutMs)) && Field(v, "interval_ms") == Num(Finite(c.intervalMs))
    requires Field(v, "failure_message") == OptStr(c.failureMessage)
    requires ImportRequest(h, Field(v, "request")) == Ok(RepairRequest(c.poll))
    ensures ImportPoll(h, v) == Ok(RepairConfig(c))
  {
    ReimportedName(c.failureMessage);
  }

  predicate ArePollFields(fields: map<string, Json>, c: Config)
    requires c.PollUntil?
  {
    && "timeout_ms" in fields && fields["timeout_ms"] == Num(Finite(c.timeoutMs))
    && "interval_ms" in fields && fields["interval_ms"] == Num(Finite(c.intervalMs))
    && "failure_message" in fields && fields["failure_message"] == OptStr(c.failureMessage)
    && "request" in fields && fields["request"] == ExportRequest(c.poll)
  }

  lemma PollFieldsAre(c: Config)
    requires c.PollUntil?
    ensures ExportConfig(c).Obj? && ArePollFields(ExportConfig(c).fields, c)
  {
  }

  lemma PollReimports(h: Host, c: Config, fields: map<string, Json>)
    requires c.PollUntil? && IsBuiltConfig(h, c) && ArePollFields(fields, c)
    ensures ImportPoll(h, Dump(Obj(fields))) == Ok(RepairConfig(c))
  {
    DumpedObjectField(fields, "timeout_ms", Num(Finite(c.timeoutMs)));
    DumpedObjectField(fields, "interval_ms", Num(Finite(c.intervalMs)));
    DumpedObjectField(fields, "failure_message", OptStr(c.failureMessage));
    DumpKeepsFields(Obj(fields), "request");
    ReimportedRequest(h, c.poll);
    PollFromFields(h, Dump(Obj(fields)), c);
  }

  lemma ReimportedPoll(h: Host, c: Config)
    requires c.PollUntil? && IsBuiltConfig(h, c)
    ensures ImportPoll(h, Dump(ExportConfig(c))) == Ok(RepairConfig(c))
  {
    PollFieldsAre(c);
    PollReimports(h, c, ExportConfig(c).fields);
  }

  lemma ReimportedConfig(h: Host, v: Json, c: Config)
    requires IsBuiltConfig(h, c) && v.Obj? && ReadsConfig(v, c) && Field(v, "type") == Str(TypeName(c))
    ensures ImportConfig(h, v) == Ok(RepairConfig(c))
  {
    match c
    case ApiRequest(request) => ReimportedRequest(h, request);
    case Wait(_) => ReimportedWait(c);
    case PollUntil(_, _, _, _) => ReimportedPoll(h, c);
    case SetVariable(_, _, _, _) => ReimportedSetVariable(h, c);
    case Assert(_, _, _, _) => ReimportedAssert(h, c);
  }

  lemma StepFromBase(h: Host, v: Json, s: Step, index: nat)
    requires IsBuiltStep(h, s) && ReadsBase(v, s) && ImportConfig(h, v) == Ok(RepairConfig(s.config))
    ensures ImportStep(h, v, index) == Ok(RepairStep(s))
  {
    TrimTrims(s.id);
    TrimTrims(s.name);
  }

  lemma ReimportedStep(h: Host, s: Step, index: nat)
    requires IsBuiltStep(h, s)
    ensures ImportStep(h, Dump(ExportStep(s)), index) == Ok(RepairStep(s))
  {
    var fields := StepFields(s);
    StepFieldsAre(s);
    ExportedBase(s, fields);
    ExportedConfig(h, s.config, fields);
    ReimportedConfig(h, Dump(CleanFields(fields)), s.config);
    StepFromBase(h, Dump(CleanFields(fields)), s, index);
  }

  // ---------- Whole plans ----------

  lemma {:induction false} ExportStepsOneByOne(steps: seq<Step>)
    requires forall i :: 0 <= i < |steps| ==> !steps[i].config.Sequence?
    ensures |ExportSteps(steps)| == |steps|
    ensures forall i :: 0 <= i < |steps| ==> ExportSteps(steps)[i] == ExportStep(steps[i])
    decreases |steps|
  {
    if steps != [] {
      ExportStepsOneByOne(steps[1..]);
      assert ExportSteps(steps) == [ExportStep(steps[0])] + ExportSteps(steps[1..]);
    }
  }

  lemma BuiltStepIsNoSequence(h: Host, s: Step)
    requires IsBuiltStep(h, s)
    ensures !s.config.Sequence?
  {
  }

  lemma ExportedDocuments(h: Host, steps: seq<Step>)
    requires AreBuiltSteps(h, steps)
    ensures var docs := Dump(Arr(ExportSteps(steps))).items;
            |docs| == |steps| && forall i :: 0 <= i < |docs| ==> docs[i] == Dump(ExportStep(steps[i]))
  {
    forall i | 0 <= i < |steps| ensures !steps[i].config.Sequence? {
      BuiltStepIsNoSequence(h, steps[i]);
    }
    ExportStepsOneByOne(steps);
  }

  predicate AreDocumentsOf(docs: seq<Json>, steps: seq<Step>) {
    |docs| == |steps| && forall i :: 0 <= i < |docs| ==> docs[i] == Dump(ExportStep(steps[i]))
  }

  lemma {:induction false} ReimportedSteps(h: Host, steps: seq<Step>, docs: seq<Json>, index: nat)
    requires AreBuiltSteps(h, steps) && AreDocumentsOf(docs, steps)
    ensures ImportSteps(h, docs, index) == Ok(RepairSteps(steps))
    decreases |steps|
  {
    if steps != [] {
      ReimportedStep(h, steps[0], index);
      ReimportedSteps(h, steps[1..], docs[1..], index + 1);
    }
  }

  lemma {:induction false} NormalizedBuiltSteps(h: Host, steps: seq<Step>)
    requires AreBuiltSteps(h, steps)
    ensures NormalizeSteps(steps) == steps
    decreases |steps|
  {
    if steps != [] {
      TrimTrims(steps[0].id);
      TrimTrims(steps[0].name);
      NormalizedBuiltSteps(h, steps[1..]);
    }
  }

  predicate SameIds(steps: seq<Step>, other: seq<Step>) {
    |steps| == |other| && forall i :: 0 <= i < |steps| ==> steps[i].id == other[i].id
  }

  lemma {:induction false} RepairKeepsIds(steps: seq<Step>)
    ensures SameIds(steps, RepairSteps(steps))
    decreases |steps|
  {
    if steps != [] {
      RepairKeepsIds(steps[1..]);
    }
  }

  lemma {:induction false} IdsDecideDependencies(steps: seq<Step>, other: seq<Step>)
    requires SameIds(steps, other)
    ensures LinearDependencies(steps) == LinearDependencies(other)
    decreases |steps|
  {
    if steps != [] {
      IdsDecideDependencies(steps[..|steps| - 1], other[..|steps| - 1]);
    }
  }

  /** Variables are decided by the ids of the steps and by what they save and set. */
  predicate SameOutline(steps: seq<Step>, other: seq<Step>) {
    && SameIds(steps, other)
    && forall i :: 0 <= i < |steps| ==>
         && SaveOf(steps[i].config) == SaveOf(other[i].config)
         && (steps[i].config.SetVariable? || other[i].config.SetVariable? ==> steps[i].config == other[i].config)
  }

  lemma {:induction false} OutlineDecidesVariables(h: Host, steps: seq<Step>, other: seq<Step>)
    requires SameOutline(steps, other)
    ensures AllVariables(h, steps) == AllVariables(h, other)
    decreases |steps|
  {
    if steps != [] {
      OutlineDecidesVariables(h, steps[1..], other[1..]);
    }
  }

  lemma RepairBuiltConfig(h: Host, c: Config)
    requires IsBuiltConfig(h, c)
    ensures IsBuiltConfig(h, RepairConfig(c)) && TypeName(RepairConfig(c)) == TypeName(c)
  {
    match c
    case ApiRequest(request) => RepairBuiltRequest(h, request);
    case PollUntil(request, _, _, _) => RepairBuiltRequest(h, request);
    case SetVariable(_, value, _, _) => DumpOptional(value);
    case Assert(_, _, operator, expected) =>
      DumpOptional(operator);
      DumpOptional(expected);
    case _ =>
  }

  lemma {:induction false} RepairBuiltSteps(h: Host, steps: seq<Step>)
    requires AreBuiltSteps(h, steps)
    ensures AreBuiltSteps(h, RepairSteps(steps))
    decreases |steps|
  {
    if steps != [] {
      RepairBuiltConfig(h, steps[0].config);
      RepairBuiltSteps(h, steps[1..]);
    }
  }

  lemma {:induction false} RepairBuiltAssertions(assertions: seq<Assertion>)
    requires forall i :: 0 <= i < |assertions| ==> IsBuiltAssertion(assertions[i])
    ensures forall i :: 0 <= i < |RepairAssertions(assertions)| ==> IsBuiltAssertion(RepairAssertions(assertions)[i])
    decreases |assertions|
  {
    if assertions != [] {
      RepairBuiltAssertions(assertions[1..]);
      DumpOptional(assertions[0].operator);
      DumpOptional(KeptOrUndefined(assertions[0].expectedValue));
    }
  }

  lemma RepairBuiltRequest(h: Host, r: Request)
    requires IsBuiltRequest(h, r)
    ensures IsBuiltRequest(h, RepairRequest(r))
  {
    DumpClean(r.headers);
    DumpClean(r.query);
    DumpClean(r.save);
    DumpOptional(r.json);
    RepairBuiltExpectation(r.expectation);
  }

  lemma RepairBuiltExpectation(e: Option<Expectation>)
    requires e.Some? ==> IsBuiltExpectation(e.value)
    ensures IsBuiltExpectation(RepairExpectation(e))
  {
    if e.Some? {
      DumpOptional(e.value.status);
      DumpOptional(e.value.jsonContains);
      RepairBuiltAssertions(e.value.assertions);
    }
  }

  /** What export loses and import fills in again, and the variables of the steps that come back. */
  function Repair(h: Host, p: Plan): Plan {
    p.(steps := RepairSteps(p.steps), variables := Sort(ByComposite(h), CollectVariables(h, RepairSteps(p.steps))))
  }

  function SameOptions(p: Plan): Options {
    Options(Some(p.suiteRevisionId), Some(Finite(p.timeoutMs)))
  }

  /** A plan as `fromRawSuite` builds them. */
  ghost predicate IsBuiltPlan(h: Host, p: Plan) {
    && AreBuiltSteps(h, p.steps)
    && p.suiteRevisionId != "" && IsName(p.suiteName) && p.timeoutMs > 0.0
    && p.dependencies == LinearDependencies(p.steps)
    && p.variables == Sort(ByComposite(h), CollectVariables(h, p.steps))
  }

  lemma {:induction false} LinearDependenciesAreSorted(steps: seq<Step>)
    ensures forall k :: k in LinearDependencies(steps) ==>
              Sort(CodeUnitLe, LinearDependencies(steps)[k]) == LinearDependencies(steps)[k]
    decreases |steps|
  {
    if steps != [] {
      LinearDependenciesAreSorted(steps[..|steps| - 1]);
    }
  }

  lemma SortedLinearDependencies(steps: seq<Step>)
    ensures var d := LinearDependencies(steps); (map k | k in d :: Sort(CodeUnitLe, d[k])) == d
  {
    LinearDependenciesAreSorted(steps);
  }

  lemma NormalizePlanOfNormal(h: Host, revision: string, name: string, steps: seq<Step>, d: map<string, seq<string>>,
                              variables: seq<Variable>, timeoutMs: Json)
    requires NormalizeSteps(steps) == steps && (map k | k in d :: Sort(CodeUnitLe, d[k])) == d
    ensures NormalizePlan(h, revision, name, steps, d, variables, timeoutMs)
         == Plan(if revision == "" then "draft" else revision, if Trim(name) == "" then "Unnamed suite" else Trim(name),
                 steps, d, Sort(ByComposite(h), variables), PositiveNumber(timeoutMs, DEFAULT_PLAN_TIMEOUT_MS))
  {
  }

  lemma NormalizedBuiltPlan(h: Host, revision: string, name: string, steps: seq<Step>, timeoutMs: Json)
    requires AreBuiltSteps(h, steps)
    ensures NormalizePlan(h, revision, name, steps, LinearDependencies(steps), CollectVariables(h, steps), timeoutMs)
         == Plan(if revision == "" then "draft" else revision, if Trim(name) == "" then "Unnamed suite" else Trim(name),
                 steps, LinearDependencies(steps), Sort(ByComposite(h), CollectVariables(h, steps)),
                 PositiveNumber(timeoutMs, DEFAULT_PLAN_TIMEOUT_MS))
  {
    NormalizedBuiltSteps(h, steps);
    SortedLinearDependencies(steps);
    NormalizePlanOfNormal(h, revision, name, steps, LinearDependencies(steps), CollectVariables(h, steps), timeoutMs);
  }

  /** Import in terms of the parts of the document it looks at. */
  lemma ImportFromParts(h: Host, document: Json, options: Options, items: seq<Json>, steps: seq<Step>, name: string)
    requires AreBuiltSteps(h, steps)
    requires IsTruthy(Field(document, "suite")) && TrimText(Field(document, "suite")) == Ok(name)
    requires Field(document, "tests") == Arr(items) && ImportSteps(h, items, 0) == Ok(steps)
    ensures Import(h, document, options)
         == Ok(Plan(if RevisionOf(options) == "" then "draft" else RevisionOf(options),
                    if Trim(name) == "" then "Unnamed suite" else Trim(name),
                    steps, LinearDependencies(steps), Sort(ByComposite(h), CollectVariables(h, steps)),
                    PositiveNumber(TimeoutOf(document, options), DEFAULT_PLAN_TIMEOUT_MS)))
  {
    NormalizedBuiltPlan(h, RevisionOf(options), name, steps, TimeoutOf(document, options));
  }

  lemma NamedPlanIsBuilt(h: Host, p: Plan, steps: seq<Step>, name: string)
    requires AreBuiltSteps(h, steps) && p.steps == steps && IsName(name) && p.suiteName == name
    requires p.suiteRevisionId != "" && p.timeoutMs > 0.0
    requires p.dependencies == LinearDependencies(steps) && p.variables == Sort(ByComposite(h), CollectVariables(h, steps))
    ensures IsBuiltPlan(h, p)
  {
  }

  lemma SuiteName(document: Json)
    requires IsTruthy(Field(document, "suite")) && TrimText(Field(document, "suite")).Ok?
    ensures var name := TrimText(Field(document, "suite")).value;
            IsName(if Trim(name) == "" then "Unnamed suite" else Trim(name))
  {
    TrimTextIsName(Field(document, "suite"));
    TrimTrims(TrimText(Field(document, "suite")).value);
  }

  lemma ImportedPlanIsBuilt(h: Host, document: Json, options: Options)
    requires TrustedHost(h) && IsYaml(document) && Import(h, document, options).Ok?
    ensures IsBuiltPlan(h, Import(h, document, options).value)
  {
    FieldIsYaml(document, "tests");
    var items := Field(document, "tests").items;
    ImportedStepsAreBuilt(h, items, 0);
    var steps := ImportSteps(h, items, 0).value;
    var name := TrimText(Field(document, "suite")).value;
    SuiteName(document);
    ImportFromParts(h, document, options, items, steps, name);
    NamedPlanIsBuilt(h, Import(h, document, options).value, steps, if Trim(name) == "" then "Unnamed suite" else Trim(name));
  }

  lemma ExportedPlanFields(p: Plan)
    ensures Field(Export(p), "suite") == Str(p.suiteName)
    ensures Field(Export(p), "tests") == Dump(Arr(ExportSteps(p.steps)))
  {
    var doc := Obj(map["suite" := Str(p.suiteName), "tests" := Arr(ExportSteps(p.steps))]);
    DumpKeepsFields(doc, "suite");
    DumpKeepsFields(doc, "tests");
  }

  /** Import accepts what export makes of a built plan, and gives it back repaired. */
  lemma ReimportRepairs(h: Host, p: Plan)
    requires IsBuiltPlan(h, p)
    ensures Import(h, Export(p), SameOptions(p)) == Ok(Repair(h, p))
  {
    var repaired := RepairSteps(p.steps);
    var docs := Dump(Arr(ExportSteps(p.steps))).items;
    ExportedPlanFields(p);
    ExportedDocuments(h, p.steps);
    ReimportedSteps(h, p.steps, docs, 0);
    RepairBuiltSteps(h, p.steps);
    TrimTrims(p.suiteName);
    ImportFromParts(h, Export(p), SameOptions(p), docs, repaired, p.suiteName);
    RepairKeepsIds(p.steps);
    IdsDecideDependencies(p.steps, repaired);
  }

  // ---------- When the round trip is the identity ----------

  predicate AssertionSurvives(a: Assertion) {
    && a.operator != Arr([]) && a.expectedValue != Arr([])
    && IsPlain(a.operator) && IsPlain(a.expectedValue)
  }

  predicate AllSurvive(assertions: seq<Assertion>) {
    forall i :: 0 <= i < |assertions| ==> AssertionSurvives(assertions[i])
  }

  /** The request states the status it expects, and no assertion holds an empty array. */
  predicate ExpectationSurvives(e: Option<Expectation>) {
    && e.Some? && e.value.status != Undefined
    && IsPlain(e.value.status) && IsPlain(e.value.jsonContains)
    && AllSurvive(e.value.assertions)
  }

  predicate RequestSurvives(r: Request) {
    && ExpectationSurvives(r.expectation)
    && IsPlain(r.headers) && IsPlain(r.query) && IsPlain(r.json) && IsPlain(r.save)
  }

  predicate ConfigSurvives(c: Config) {
    match c
    case ApiRequest(request) => RequestSurvives(request)
    case PollUntil(request, _, _, _) => RequestSurvives(request)
    case SetVariable(_, value, _, _) => IsPlain(value)
    case Assert(_, _, operator, expected) => IsPlain(operator) && IsPlain(expected)
    case _ => true
  }

  predicate PlanSurvives(p: Plan) {
    forall i :: 0 <= i < |p.steps| ==> ConfigSurvives(p.steps[i].config)
  }

  lemma {:induction false} RepairedAssertionsLength(assertions: seq<Assertion>)
    ensures |RepairAssertions(assertions)| <= |assertions|
    decreases |assertions|
  {
    if assertions != [] { RepairedAssertionsLength(assertions[1..]); }
  }

  lemma AssertionSurvivesIff(a: Assertion)
    requires IsBuiltAssertion(a)
    ensures RepairAssertion(a) == Some(a) <==> AssertionSurvives(a)
  {
    DumpOptional(a.operator);
    DumpOptional(a.expectedValue);
    DumpOptional(KeptOrUndefined(a.expectedValue));
  }

  lemma {:induction false} AssertionsSurviveIff(assertions: seq<Assertion>)
    requires forall i :: 0 <= i < |assertions| ==> IsBuiltAssertion(assertions[i])
    ensures RepairAssertions(assertions) == assertions <==> AllSurvive(assertions)
    decreases |assertions|
  {
    if assertions != [] {
      var a, rest := assertions[0], assertions[1..];
      AssertionsSurviveIff(rest);
      RepairedAssertionsLength(rest);
      assert assertions == [a] + rest;
      AssertionSurvivesIff(a);
      if AssertionSurvives(a) {
        assert RepairAssertions(assertions) == [a] + RepairAssertions(rest);
        if RepairAssertions(assertions) == assertions {
          assert RepairAssertions(rest) == RepairAssertions(assertions)[1..];
        }
        assert forall i :: 0 <= i < |rest| ==> rest[i] == assertions[i + 1];
      } else {
        assert !AssertionSurvives(assertions[0]);
      }
    }
  }

  lemma RequestSurvivesIff(h: Host, r: Request)
    requires IsBuiltRequest(h, r)
    ensures RepairRequest(r) == r <==> RequestSurvives(r)
  {
    DumpOptional(r.headers);
    DumpOptional(r.query);
    DumpOptional(r.json);
    DumpOptional(r.save);
    ExpectationSurvivesIff(r.expectation);
  }

  lemma ExpectationSurvivesIff(e: Option<Expectation>)
    requires e.Some? ==> IsBuiltExpectation(e.value)
    ensures Some(RepairExpectation(e)) == e <==> ExpectationSurvives(e)
  {
    if e.Some? {
      DumpOptional(e.value.status);
      DumpOptional(e.value.jsonContains);
      AssertionsSurviveIff(e.value.assertions);
    }
  }

  lemma StepSurvivesIff(h: Host, s: Step)
    requires IsBuiltStep(h, s)
    ensures RepairStep(s) == s <==> ConfigSurvives(s.config)
  {
    match s.config
    case ApiRequest(request) => RequestSurvivesIff(h, request);
    case PollUntil(request, _, _, _) => RequestSurvivesIff(h, request);
    case SetVariable(_, value, _, _) => DumpOptional(value);
    case Assert(_, _, operator, expected) =>
      DumpOptional(operator);
      DumpOptional(expected);
    case _ =>
  }

  lemma {:induction false} RepairedStepAt(steps: seq<Step>, i: nat)
    requires i < |steps|
    ensures |RepairSteps(steps)| == |steps| && RepairSteps(steps)[i] == RepairStep(steps[i])
    decreases |steps|
  {
    RepairKeepsIds(steps);
    if i > 0 { RepairedStepAt(steps[1..], i - 1); }
  }

  lemma PlanSurvivesIff(h: Host, p: Plan)
    requires IsBuiltPlan(h, p)
    ensures Repair(h, p) == p <==> PlanSurvives(p)
  {
    forall i | 0 <= i < |p.steps|
      ensures |RepairSteps(p.steps)| == |p.steps|
      ensures RepairSteps(p.steps)[i] == p.steps[i] <==> ConfigSurvives(p.steps[i].config)
    {
      RepairedStepAt(p.steps, i);
      StepSurvivesIff(h, p.steps[i]);
    }
    RepairKeepsIds(p.steps);
    if PlanSurvives(p) {
      assert RepairSteps(p.steps) == p.steps;
    }
  }

  /**
   * Re-importing the export of any imported plan never fails, and gives back that plan exactly when every request
   * states its expected status, no assertion holds an empty array as operator or expected value, and no value was
   * loaded as an object of another class.
   */
  lemma ExportThenImport(h: Host, document: Json, options: Options)
    requires TrustedHost(h) && IsYaml(document) && Import(h, document, options).Ok?
    ensures var p := Import(h, document, options).value;
            var back := Import(h, Export(p), SameOptions(p));
            back == Ok(Repair(h, p)) && (back == Ok(p) <==> PlanSurvives(p))
  {
    var p := Import(h, document, options).value;
    ImportedPlanIsBuilt(h, document, options);
    ReimportRepairs(h, p);
    PlanSurvivesIff(h, p);
  }

  lemma {:induction false} RepairedAssertionsSurvive(assertions: seq<Assertion>)
    requires forall i :: 0 <= i < |assertions| ==> IsBuiltAssertion(assertions[i])
    ensures AllSurvive(RepairAssertions(assertions))
    decreases |assertions|
  {
    if assertions != [] {
      RepairedAssertionsSurvive(assertions[1..]);
      DumpOptional(assertions[0].operator);
      DumpOptional(KeptOrUndefined(assertions[0].expectedValue));
      var first, rest := RepairAssertion(assertions[0]), RepairAssertions(assertions[1..]);
      forall i | 0 <= i < |rest| ensures AssertionSurvives(rest[i]) {
        assert AssertionSurvives(RepairAssertions(assertions[1..])[i]);
      }
      if first.Some? {
        assert AssertionSurvives(first.value);
        assert RepairAssertions(assertions) == [first.value] + rest;
      }
    }
  }

  lemma RepairedRequestSurvives(h: Host, r: Request)
    requires IsBuiltRequest(h, r)
    ensures RequestSurvives(RepairRequest(r))
  {
    DumpOptional(r.headers);
    DumpOptional(r.query);
    DumpOptional(r.json);
    DumpOptional(r.save);
    RepairedExpectationSurvives(r.expectation);
  }

  lemma RepairedExpectationSurvives(e: Option<Expectation>)
    requires e.Some? ==> IsBuiltExpectation(e.value)
    ensures ExpectationSurvives(Some(RepairExpectation(e)))
  {
    if e.Some? {
      DumpOptional(e.value.status);
      DumpOptional(e.value.jsonContains);
      RepairedAssertionsSurvive(e.value.assertions);
    }
  }

  /** One round trip is enough: what comes back survives every further one. */
  lemma SecondRoundTripIsIdentity(h: Host, document: Json, options: Options)
    requires TrustedHost(h) && IsYaml(document) && Import(h, document, options).Ok?
    ensures var q := Repair(h, Import(h, document, options).value);
            Import(h, Export(q), SameOptions(q)) == Ok(q)
  {
    var p := Import(h, document, options).value;
    ImportedPlanIsBuilt(h, document, options);
    var q := Repair(h, p);
    RepairedPlanIsBuilt(h, p);
    ReimportRepairs(h, q);
    forall i | 0 <= i < |q.steps| ensures ConfigSurvives(q.steps[i].config) {
      RepairKeepsIds(p.steps);
      RepairedStepAt(p.steps, i);
      RepairedStepSurvives(h, p.steps[i]);
    }
    PlanSurvivesIff(h, q);
  }

  lemma RepairedStepSurvives(h: Host, s: Step)
    requires IsBuiltStep(h, s)
    ensures ConfigSurvives(RepairConfig(s.config))
  {
    match s.config
    case ApiRequest(request) => RepairedRequestSurvives(h, request);
    case PollUntil(request, _, _, _) => RepairedRequestSurvives(h, request);
    case SetVariable(_, value, _, _) => DumpOptional(value);
    case Assert(_, _, operator, expected) =>
      DumpOptional(operator);
      DumpOptional(expected);
    case _ =>
  }

  lemma RepairedPlanIsBuilt(h: Host, p: Plan)
    requires IsBuiltPlan(h, p)
    ensures IsBuiltPlan(h, Repair(h, p))
  {
    RepairBuiltSteps(h, p.steps);
    RepairKeepsIds(p.steps);
    IdsDecideDependencies(p.steps, RepairSteps(p.steps));
  }

  /** A request that expects the status `""`, which `cleanObject` drops on import. */
  function BlankStatusRequest(): Json {
    Obj(map["method" := Str("GET"), "path" := Str("/"), "expect" := Obj(map["status" := Str("")])])
  }

  lemma BlankStatusIsNoExpectation()
    ensures ImportExpectation(Obj(map["status" := Str("")])) == Ok(None)
  {
    var e := Obj(map["status" := Str("")]);
    assert Field(e, "status") == Str("") && Field(e, "json_contains") == Undefined && Field(e, "assertions") == Undefined;
    assert ImportAssertions([]) == Ok([]);
  }

  lemma BareRequestIsImported(h: Host, v: Json, json: Json, e: Option<Expectation>)
    requires Field(v, "method") == Str("GET") && Field(v, "path") == Str("/") && Field(v, "json") == json
    requires Field(v, "headers") == Undefined && Field(v, "query") == Undefined && Field(v, "save") == Undefined
    requires ImportExpectation(Field(v, "expect")) == Ok(e) && (json.Undefined? || IsKept(json))
    ensures ImportRequest(h, v) == Ok(Request(h.upper("GET"), "/", Undefined, Undefined, json, e, Undefined))
  {
    TrimTrims("GET");
    TrimTrims("/");
  }

  lemma BlankStatusIsImported(h: Host)
    ensures ImportRequest(h, BlankStatusRequest())
         == Ok(Request(h.upper("GET"), "/", Undefined, Undefined, Undefined, None, Undefined))
  {
    var v := BlankStatusRequest();
    BlankStatusIsNoExpectation();
    assert Field(v, "expect") == Obj(map["status" := Str("")]);
    BareRequestIsImported(h, v, Undefined, None);
  }

  /** It is imported without an expected status, and its export comes back expecting 200. */
  lemma BlankStatusComesBackAs200(h: Host)
    requires TrustedHost(h)
    ensures ImportRequest(h, BlankStatusRequest()).Ok?
    ensures var r := ImportRequest(h, BlankStatusRequest()).value;
            && r.expectation == None
            && ImportRequest(h, Dump(ExportRequest(r))).Ok?
            && ImportRequest(h, Dump(ExportRequest(r))).value.expectation
               == Some(Expectation(Num(Finite(200.0)), Undefined, []))
  {
    BlankStatusIsImported(h);
    TrimTrims("GET");
    ReimportedRequest(h, Request(h.upper("GET"), "/", Undefined, Undefined, Undefined, None, Undefined));
  }

  /** A date, as the loader makes one of `2024-01-01`. */
  const A_DATE := Foreign(map[])

  /** A request whose body is an unquoted date. */
  function DateRequest(): Json {
    Obj(map["method" := Str("GET"), "path" := Str("/"), "json" := A_DATE])
  }

  /** What it is imported as. */
  function DatedRequest(h: Host): Request {
    Request(h.upper("GET"), "/", Undefined, Undefined, A_DATE,
            Some(Expectation(Num(Finite(200.0)), Undefined, [])), Undefined)
  }

  lemma NoExpectationIs200()
    ensures ImportExpectation(Undefined) == Ok(Some(Expectation(Num(Finite(200.0)), Undefined, [])))
  {
    assert ImportAssertions([]) == Ok([]);
  }

  lemma DateRequestIsImported(h: Host)
    ensures ImportRequest(h, DateRequest()) == Ok(DatedRequest(h))
  {
    NoExpectationIs200();
    BareRequestIsImported(h, DateRequest(), A_DATE, Some(Expectation(Num(Finite(200.0)), Undefined, [])));
  }

  lemma DatedRequestIsBuilt(h: Host)
    requires TrustedHost(h)
    ensures IsBuiltRequest(h, DatedRequest(h)) && RepairRequest(DatedRequest(h)).json == Obj(map[])
  {
    TrimTrims("GET");
    assert Dump(A_DATE) == Obj(map[]);
  }

  /** It states its status and holds no empty array, yet its body comes back as an empty object. */
  lemma DateComesBackEmpty(h: Host)
    requires TrustedHost(h)
    ensures ImportRequest(h, DateRequest()) == Ok(DatedRequest(h))
    ensures ImportRequest(h, Dump(ExportRequest(DatedRequest(h)))).Ok?
    ensures ImportRequest(h, Dump(ExportRequest(DatedRequest(h)))).value.json == Obj(map[])
  {
    DateRequestIsImported(h);
    DatedRequestIsBuilt(h);
    ReimportedRequest(h, DatedRequest(h));
  }
}
