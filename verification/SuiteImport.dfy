/** What importing a suite document comes to, told in the document's own terms. */
module SuiteImport {
  import opened Wrappers
  import opened Json
  import opened Text
  import opened Sorting
  import opened ExecutionPlans
  import opened YamlAdapter
  import opened YamlRoundTrip
  import opened VisualFlows
  import opened VisualCompiler
  import opened VisualDependencies

  // ---------- The ids of steps that come without one ----------

  predicate IsDigit(c: char) {
    '0' <= c <= '9'
  }

  predicate AreDigits(s: string) {
    forall i :: 0 <= i < |s| ==> IsDigit(s[i])
  }

  /** The number that a string of digits writes. */
  function NumberOf(s: string): nat
    requires AreDigits(s)
  {
    if s == "" then 0 else 10 * NumberOf(s[..|s| - 1]) + (s[|s| - 1] as int - '0' as int)
  }

  lemma DigitIsRead(d: nat)
    requires d < 10
    ensures IsDigit(Digit(d)) && Digit(d) as int - '0' as int == d
  {
    assert d == 0 || d == 1 || d == 2 || d == 3 || d == 4 || d == 5 || d == 6 || d == 7 || d == 8 || d == 9;
  }

  lemma {:induction false} DecimalIsRead(n: nat)
    ensures AreDigits(Decimal(n)) && NumberOf(Decimal(n)) == n && |Decimal(n)| >= 1
    decreases n
  {
    hide Digit, IsDigit;
    DigitIsRead(n % 10);
    if n < 10 {
      assert Decimal(n)[..0] == "";
    } else {
      DecimalIsRead(n / 10);
      assert Decimal(n)[..|Decimal(n)| - 1] == Decimal(n / 10);
    }
  }

  lemma {:induction false} LeadingZero(s: string)
    requires AreDigits(s)
    ensures AreDigits("0" + s) && NumberOf("0" + s) == NumberOf(s)
    decreases |s|
  {
    if s == "" {
      assert ("0" + s)[..0] == "";
    } else {
      LeadingZero(s[..|s| - 1]);
      assert ("0" + s)[..|s|] == "0" + s[..|s| - 1];
    }
  }

  lemma {:induction false} PaddedIsRead(s: string, n: nat)
    requires AreDigits(s)
    ensures AreDigits(PadStart(s, n)) && NumberOf(PadStart(s, n)) == NumberOf(s)
    ensures |PadStart(s, n)| == if |s| < n then n else |s|
    decreases n - |s|
  {
    if |s| < n {
      LeadingZero(s);
      PaddedIsRead("0" + s, n);
    }
  }

  /** `id` is `step-` and a number of at least three digits, here `number`. */
  predicate IsNumbered(id: string, number: nat) {
    |id| >= 8 && id[..5] == "step-" && AreDigits(id[5..]) && NumberOf(id[5..]) == number
  }

  lemma DefaultIdIsNumbered(index: nat)
    ensures IsNumbered(DefaultId(index), index + 1)
  {
    DecimalIsRead(index + 1);
    PaddedIsRead(Decimal(index + 1), 3);
    assert DefaultId(index)[..5] == "step-";
    assert DefaultId(index)[5..] == PadStart(Decimal(index + 1), 3);
  }

  lemma DefaultIdsDiffer(i: nat, j: nat)
    requires DefaultId(i) == DefaultId(j)
    ensures i == j
  {
    DefaultIdIsNumbered(i);
    DefaultIdIsNumbered(j);
  }

  // ---------- Steps, names and dependencies ----------

  lemma {:induction false} StepAtPlace(h: Host, items: seq<Json>, index: nat, i: nat)
    requires ImportSteps(h, items, index).Ok? && i < |items|
    ensures ImportStep(h, items[i], index + i) == Ok(ImportSteps(h, items, index).value[i])
    decreases |items|
  {
    hide ImportStep;
    if i > 0 { StepAtPlace(h, items[1..], index + 1, i - 1); }
  }

  lemma ImportedParts(h: Host, document: Json, options: Options)
    requires TrustedHost(h) && IsYaml(document) && Import(h, document, options).Ok?
    ensures Field(document, "tests").Arr?
    ensures var p, items := Import(h, document, options).value, Field(document, "tests").items;
            && ImportSteps(h, items, 0) == Ok(p.steps)
            && p.dependencies == LinearDependencies(p.steps)
            && p.variables == Sort(ByComposite(h), CollectVariables(h, p.steps))
  {
    FieldIsYaml(document, "tests");
    var items := Field(document, "tests").items;
    ImportedStepsAreBuilt(h, items, 0);
    ImportFromParts(h, document, options, items, ImportSteps(h, items, 0).value,
                    TrimText(Field(document, "suite")).value);
  }

  /** What a text in a document counts as: nothing, if it is missing or blank. */
  function TextIn(v: Json, key: string): string {
    if Field(v, key).Str? then Trim(Field(v, key).s) else ""
  }

  lemma StepIsNamed(h: Host, v: Json, i: nat)
    requires ImportStep(h, v, i).Ok?
    ensures var s := ImportStep(h, v, i).value;
            && (if TextIn(v, "id") == "" then IsNumbered(s.id, i + 1) else s.id == TextIn(v, "id"))
            && s.name == if TextIn(v, "name") == "" then s.id else TextIn(v, "name")
  {
    DefaultIdIsNumbered(i);
    hide ImportConfig, ImportRetry, DefaultId, IsNumbered, Trim;
  }

  /** Every test becomes the step at its place; without an id it is numbered by it, without a name it has its id. */
  lemma StepsAreNamed(h: Host, document: Json, options: Options, i: nat)
    requires TrustedHost(h) && IsYaml(document) && Import(h, document, options).Ok?
    requires i < |Import(h, document, options).value.steps|
    ensures Field(document, "tests").Arr? && |Field(document, "tests").items| == |Import(h, document, options).value.steps|
    ensures var s, v := Import(h, document, options).value.steps[i], Field(document, "tests").items[i];
            && (if TextIn(v, "id") == "" then IsNumbered(s.id, i + 1) else s.id == TextIn(v, "id"))
            && s.name == if TextIn(v, "name") == "" then s.id else TextIn(v, "name")
  {
    hide IsYaml, TrustedHost, Import, ImportSteps, ImportStep, TextIn, IsNumbered;
    ImportedParts(h, document, options);
    var items := Field(document, "tests").items;
    StepAtPlace(h, items, 0, i);
    StepIsNamed(h, items[i], i);
  }

  /** The tests say nothing about their ids, or nothing but blanks. */
  predicate HasNoIds(document: Json) {
    Field(document, "tests").Arr? &&
    forall i :: 0 <= i < |Field(document, "tests").items| ==> TextIn(Field(document, "tests").items[i], "id") == ""
  }

  predicate DependsOnPrevious(steps: seq<Step>, d: map<string, seq<string>>, i: nat)
    requires i < |steps|
  {
    steps[i].id in d && d[steps[i].id] == if i == 0 then [] else [steps[i - 1].id]
  }

  /** No two steps share an id, each depends on exactly the one before it, and nothing else is recorded. */
  ghost predicate DependInLine(steps: seq<Step>, d: map<string, seq<string>>) {
    && (forall i, j :: 0 <= i < j < |steps| ==> steps[i].id != steps[j].id)
    && (forall i :: 0 <= i < |steps| ==> DependsOnPrevious(steps, d, i))
    && (forall x :: x in d ==> exists i :: 0 <= i < |steps| && steps[i].id == x)
  }

  /** Steps without ids of their own get different ones, and each depends on exactly the one before it. */
  lemma StepsWithoutIds(h: Host, document: Json, options: Options)
    requires TrustedHost(h) && IsYaml(document) && Import(h, document, options).Ok? && HasNoIds(document)
    ensures var p := Import(h, document, options).value; DependInLine(p.steps, p.dependencies)
  {
    hide IsYaml, TrustedHost, Import, ImportSteps, TextIn, IsNumbered, LinearDependencies, DependInLine;
    ImportedParts(h, document, options);
    var steps := Import(h, document, options).value.steps;
    forall i | 0 <= i < |steps| ensures IsNumbered(steps[i].id, i + 1) { StepsAreNamed(h, document, options, i); }
    DistinctStepsAreLinear(steps);
  }

  lemma NumbersTellApart(steps: seq<Step>)
    requires forall i :: 0 <= i < |steps| ==> IsNumbered(steps[i].id, i + 1)
    ensures forall i, j :: 0 <= i < j < |steps| ==> steps[i].id != steps[j].id
  {
  }

  lemma DependencyOf(steps: seq<Step>, i: nat)
    requires i < |steps| && forall j, k :: 0 <= j < k < |steps| ==> steps[j].id != steps[k].id
    ensures DependsOnPrevious(steps, LinearDependencies(steps), i)
  {
    hide LinearDependencies;
    var ids := seq(|steps|, k requires 0 <= k < |steps| => steps[k].id);
    LinearAt(steps, ids, i);
  }

  lemma DistinctStepsAreLinear(steps: seq<Step>)
    requires forall i :: 0 <= i < |steps| ==> IsNumbered(steps[i].id, i + 1)
    ensures DependInLine(steps, LinearDependencies(steps))
  {
    NumbersTellApart(steps);
    hide IsNumbered, LinearDependencies, DependsOnPrevious;
    forall i | 0 <= i < |steps| ensures DependsOnPrevious(steps, LinearDependencies(steps), i) {
      DependencyOf(steps, i);
    }
    forall x | x in LinearDependencies(steps) ensures exists i :: 0 <= i < |steps| && steps[i].id == x {
      LinearKeys(steps, x);
    }
  }

  // ---------- The variables of a plan ----------

  /** The host lists every key of an object and nothing else. */
  ghost predicate ListsKeys(h: Host) {
    forall keys: set<string>, k: string :: k in h.listing(keys) <==> k in keys
  }

  predicate IsSaved(save: Json, name: string, path: Json) {
    save.Obj? && name in save.fields && save.fields[name] == path
  }

  /** Step `s` is where variable `v` comes from: a request or a poll that saves it, or a step that sets it. */
  predicate Declares(s: Step, v: Variable) {
    && v.sourceStepId == s.id
    && match s.config
       case ApiRequest(request) => IsSaved(request.save, v.name, v.path)
       case PollUntil(request, _, _, _) => IsSaved(request.save, v.name, v.path)
       case SetVariable(name, _, _, path) => v.name == name && v.path == Str(if path.Some? then path.value else "$")
       case Wait(_) | Assert(_, _, _, _) | Sequence(_) => false
  }

  lemma {:induction false} ListedIsSaved(keys: seq<string>, fields: map<string, Json>, stepId: string, v: Variable)
    requires forall k :: k in keys ==> k in fields
    ensures v in Listed(keys, fields, stepId) <==>
              v.name in keys && v.sourceStepId == stepId && v.path == fields[v.name]
    decreases |keys|
  {
    if keys != [] {
      assert keys == [keys[0]] + keys[1..];
      ListedIsSaved(keys[1..], fields, stepId, v);
    }
  }

  lemma StepDeclares(h: Host, s: Step, v: Variable)
    requires ListsKeys(h)
    ensures v in VariablesOf(h, s) <==> Declares(s, v)
  {
    if !s.config.SetVariable? && SaveOf(s.config).Obj? {
      var fields := SaveOf(s.config).fields;
      forall k | k in h.listing(fields.Keys) ensures k in fields { assert k in fields.Keys; }
      ListedIsSaved(h.listing(fields.Keys), fields, s.id, v);
      assert v.name in h.listing(fields.Keys) <==> v.name in fields.Keys;
    }
  }

  lemma {:induction false} SomeStepDeclares(h: Host, steps: seq<Step>, v: Variable)
    requires ListsKeys(h)
    ensures v in AllVariables(h, steps) <==> exists i :: 0 <= i < |steps| && Declares(steps[i], v)
    decreases |steps|
  {
    if steps != [] {
      StepDeclares(h, steps[0], v);
      SomeStepDeclares(h, steps[1..], v);
      if i :| 0 <= i < |steps[1..]| && Declares(steps[1..][i], v) { assert Declares(steps[i + 1], v); }
      if i :| 0 <= i < |steps| && Declares(steps[i], v) { assert i > 0 ==> Declares(steps[1..][i - 1], v); }
    }
  }

  lemma {:induction false} NamedHasName(variables: seq<Variable>, v: Variable)
    ensures v in Named(variables) <==> v in variables && Trim(v.name) != ""
    decreases |variables|
  {
    if variables != [] {
      assert variables == [variables[0]] + variables[1..];
      NamedHasName(variables[1..], v);
    }
  }

  /** The variables of an imported plan are those its steps declare, but for blank names. */
  lemma VariablesAreDeclared(h: Host, document: Json, options: Options, v: Variable)
    requires TrustedHost(h) && ListsKeys(h) && IsYaml(document) && Import(h, document, options).Ok?
    ensures var p := Import(h, document, options).value;
            v in p.variables <==> Trim(v.name) != "" && exists i :: 0 <= i < |p.steps| && Declares(p.steps[i], v)
  {
    ImportedParts(h, document, options);
    var steps := Import(h, document, options).value.steps;
    SomeStepDeclares(h, steps, v);
    NamedHasName(AllVariables(h, steps), v);
    SortPermutes(ByName(h), Named(AllVariables(h, steps)));
    SortPermutes(ByComposite(h), CollectVariables(h, steps));
    SameMembers(CollectVariables(h, steps), Named(AllVariables(h, steps)));
    SameMembers(Sort(ByComposite(h), CollectVariables(h, steps)), CollectVariables(h, steps));
  }

  /** A compiled plan has the variables its steps declare, with the ids as they are before trimming. */
  lemma CompiledVariablesAreDeclared(h: Host, f: Flow, order: seq<string>, options: Options, v: Variable)
    requires ListsKeys(h) && IsSupported(f.nodes) && forall x :: x in order ==> x in IdsOf(f.nodes)
    ensures var steps := StepsInOrder(h, f.nodes, order);
            v in CompiledPlan(h, f, order, options).variables <==>
              exists i :: 0 <= i < |steps| && Declares(steps[i], v)
  {
    var steps := StepsInOrder(h, f.nodes, order);
    SomeStepDeclares(h, steps, v);
    SortPermutes(ByName(h), AllVariables(h, steps));
    SortPermutes(ByComposite(h), Sort(ByName(h), AllVariables(h, steps)));
    SameMembers(Sort(ByName(h), AllVariables(h, steps)), AllVariables(h, steps));
    SameMembers(Sort(ByComposite(h), Sort(ByName(h), AllVariables(h, steps))), Sort(ByName(h), AllVariables(h, steps)));
  }

  // ---------- What is filled in ----------

  /** Revision, name and limit of a suite: from the caller or the document if they make sense, else the default ones. */
  lemma EmptySuite(h: Host, document: Json, options: Options, name: string)
    requires Field(document, "suite") == Str(name) && Field(document, "tests") == Arr([])
    ensures var given := if options.timeoutMs.Some? then Num(options.timeoutMs.value) else Field(document, "timeout_ms");
            Import(h, document, options) ==
              if name == "" then Err(BadRequest(InvalidSuite))
              else Ok(Plan(if options.suiteRevisionId in {None, Some("")} then "draft" else options.suiteRevisionId.value,
                           if AreSpaces(name) then "Unnamed suite" else Trim(name), [], map[], [],
                           if given.Num? && given.n.Finite? && given.n.value > 0.0 then given.n.value else 300000.0))
  {
    TrimTrims(name);
    TrimTrims(Trim(name));
    TrimmedToNothing(name);
    assert LinearDependencies([]) == map[];
  }

  /** The same of a compiled flow, where the limit comes from the caller only. */
  lemma CompiledSuite(h: Host, f: Flow, order: seq<string>, options: Options)
    requires IsSupported(f.nodes) && forall x :: x in order ==> x in IdsOf(f.nodes)
    ensures var p := CompiledPlan(h, f, order, options);
            && p.suiteRevisionId == (if options.suiteRevisionId in {None, Some("")} then "draft"
                                     else options.suiteRevisionId.value)
            && p.suiteName == (if AreSpaces(f.suiteName) then "Unnamed suite" else Trim(f.suiteName))
            && p.timeoutMs == match options.timeoutMs
                              case Some(Finite(t)) => if t > 0.0 then t else 300000.0
                              case _ => 300000.0
  {
    TrimTrims(f.suiteName);
    TrimTrims(Trim(f.suiteName));
    TrimmedToNothing(f.suiteName);
    hide ToStep;
  }

  /** A wait step that says nothing but how long. */
  lemma BareWait(h: Host, id: string, duration: real, i: nat)
    requires IsName(id) && duration > 0.0
    ensures ImportStep(h, Obj(map["id" := Str(id), "wait" := Obj(map["duration_ms" := Num(Finite(duration))])]), i)
         == Ok(Step(id, Str("wait/v1"), id, Wait(duration), 30000.0, RetryPolicy(1.0, 0.0), false))
  {
    TrimTrims(id);
    var wait := Obj(map["duration_ms" := Num(Finite(duration))]);
    var v := Obj(map["id" := Str(id), "wait" := wait]);
    assert Field(v, "id") == Str(id) && Field(v, "name") == Undefined && Has(v, "wait") && Field(v, "wait") == wait;
    assert Field(wait, "duration_ms") == Num(Finite(duration)) && "wait" + "/v1" == "wait/v1";
    assert Field(v, "timeout_ms") == Field(v, "retry_policy") == Field(v, "continue_on_failure") == Undefined;
  }

  /** A request that says nothing but its method and path expects status 200. */
  lemma BareRequest(h: Host, verb: string, path: string)
    requires TrustedHost(h) && IsName(verb) && IsName(path)
    ensures ImportRequest(h, Obj(map["method" := Str(verb), "path" := Str(path)]))
         == Ok(Request(h.upper(verb), path, Undefined, Undefined, Undefined,
                       Some(Expectation(Num(Finite(200.0)), Undefined, [])), Undefined))
  {
    TrimTrims(verb);
    TrimTrims(path);
    var v := Obj(map["method" := Str(verb), "path" := Str(path)]);
    assert Field(v, "method") == Str(verb) && Field(v, "path") == Str(path);
    assert Field(v, "expect") == Field(v, "headers") == Field(v, "query") == Field(v, "json") == Field(v, "save")
        == Undefined;
  }

  /** A poll that says nothing but its request asks every second for half a minute. */
  lemma BarePoll(h: Host, request: Json)
    requires ImportRequest(h, request).Ok?
    ensures ImportPoll(h, Obj(map["request" := request]))
         == Ok(PollUntil(ImportRequest(h, request).value, 30000.0, 1000.0, None))
  {
    var v := Obj(map["request" := request]);
    assert Field(v, "request") == request;
    assert Field(v, "timeout_ms") == Field(v, "timeout_seconds") == Field(v, "interval_ms")
        == Field(v, "interval_seconds") == Field(v, "failure_message") == Undefined;
  }

  /** A poll that gives its times in seconds. */
  lemma PollInSeconds(h: Host, v: Json, timeout: real, interval: real)
    requires !IsNullish(v) && Field(v, "timeout_ms") == Field(v, "interval_ms") == Undefined
    requires Field(v, "timeout_seconds") == Num(Finite(timeout)) && Field(v, "interval_seconds") == Num(Finite(interval))
    requires (forall n :: h.toNumber(Num(n)) == n) && timeout > 0.0 && interval > 0.0
    requires ImportRequest(h, Field(v, "request")).Ok? && TrimText(Field(v, "failure_message")).Ok?
    ensures var r := ImportPoll(h, v);
            if timeout < interval then r == Err(BadRequest(PollInterval))
            else r.Ok? && r.value.poll == ImportRequest(h, Field(v, "request")).value
                 && r.value.timeoutMs == 1000.0 * timeout && r.value.intervalMs == 1000.0 * interval
  {
    hide ImportRequest, TrimText;
  }

  lemma {:induction false} PositionHolds(items: seq<Json>, i: nat)
    requires i < |items|
    ensures Decimal(i) in ByPosition(items) && ByPosition(items)[Decimal(i)] == items[i]
    decreases |items|
  {
    var n := |items| - 1;
    if i < n {
      DecimalIsRead(i);
      DecimalIsRead(n);
      assert Decimal(i) != Decimal(n);
      PositionHolds(items[..n], i);
    }
  }

  /** `cleanObject` takes an array for an object with its positions as keys. */
  lemma CleaningNumbers(items: seq<Json>, i: nat)
    requires i < |items|
    ensures Field(CleanObject(Arr(items)), Decimal(i)) ==
              if items[i] == Str("") || items[i] == Arr([]) then Undefined else items[i]
  {
    PositionHolds(items, i);
    CleanedField(ByPosition(items), Decimal(i));
  }

  predicate IsVersionOf(version: Json, c: Config) {
    match c
    case ApiRequest(_) => version == Str("apiRequest/v1")
    case Wait(_) => version == Str("wait/v1")
    case PollUntil(_, _, _, _) => version == Str("pollUntil/v1")
    case SetVariable(_, _, _, _) => version == Str("setVariable/v1")
    case Assert(_, _, _, _) => version == Str("assert/v1")
    case Sequence(_) => false
  }

  lemma VersionOfKind(c: Config)
    ensures !c.Sequence? ==> IsVersionOf(Str(TypeName(c) + "/v1"), c)
  {
    match c
    case ApiRequest(_) => assert "apiRequest" + "/v1" == "apiRequest/v1";
    case Wait(_) => assert "wait" + "/v1" == "wait/v1";
    case PollUntil(_, _, _, _) => assert "pollUntil" + "/v1" == "pollUntil/v1";
    case SetVariable(_, _, _, _) => assert "setVariable" + "/v1" == "setVariable/v1";
    case Assert(_, _, _, _) => assert "assert" + "/v1" == "assert/v1";
    case Sequence(_) =>
  }

  lemma NoSequenceIsImported(h: Host, v: Json)
    ensures ImportConfig(h, v).Ok? ==> !ImportConfig(h, v).value.Sequence?
  {
    hide ImportRequest, TrimText, Field, Duration, PositiveNumber, Has;
  }

  /** Every imported step has the version of its kind. */
  lemma StepIsVersioned(h: Host, v: Json, i: nat)
    requires ImportStep(h, v, i).Ok?
    ensures IsVersionOf(ImportStep(h, v, i).value.version, ImportStep(h, v, i).value.config)
  {
    NoSequenceIsImported(h, v);
    VersionOfKind(ImportStep(h, v, i).value.config);
    hide ImportConfig, ImportRetry, DefaultId, TypeName, IsVersionOf, TrimText, Field, PositiveNumber;
  }
}
