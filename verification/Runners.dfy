/** The API test runner, whose steps talk through the last HTTP response, and the web runner. */
module Runners {
  import opened Wrappers
  import opened JsText
  import opened JsonPath
  import T = TestRunSaga

  datatype Response = Response(status: int, body: Json)

  /** `path` and `operator` may be missing from the step's options. */
  datatype Assertion = Assertion(path: Option<string>, expected: Json, operator: Option<string>)

  datatype StepType = HTTP_REQUEST | ASSERT_STATUS | ASSERT_RESPONSE | UNSUPPORTED

  datatype TestStep = TestStep(kind: StepType, value: string, assertion: Option<Assertion>)

  /** Everything a run depends on from outside: what each request answers (None when it throws),
      what prototypes and `String(...)` answer. */
  datatype Environment = Environment(fetch: nat -> Option<Response>, protos: Prototypes, render: Json -> string)

  /** What a step throws, with the values its message quotes. */
  datatype StepError =
    | FetchFailed
    | NoResponse
    | UnexpectedStatus(expectedStatus: Option<int>, status: int)
    | NoAssertion
    | NoPath
    | UnknownOperator(operator: string)
    | AssertionFailed(path: string, operator: string, expected: Json, actual: Json)

  datatype StepResult = StepResult(stepIndex: nat, status: T.ResultStatus)

  datatype ExecutionResult =
    ExecutionResult(status: T.ResultStatus, errorMessage: Option<StepError>, stepResults: seq<StepResult>)

  // ----- Comparing values -----

  /** `===` between a value from the response and one from the step: two objects are never the same. */
  predicate StrictEquals(a: Json, b: Json) {
    !a.Arr? && !a.Obj? && !a.Other? && a == b
  }

  predicate Includes(s: string, part: string) {
    exists i :: 0 <= i <= |s| && part <= s[i..]
  }

  /** None when the operator is unknown. */
  function Holds(env: Environment, actual: Json, expected: Json, operator: string): Option<bool> {
    if operator == "equals" then Some(StrictEquals(actual, expected))
    else if operator == "contains" then Some(Includes(env.render(actual), env.render(expected)))
    else if operator == "exists" then Some(!actual.Undefined?)
    else if operator == "notNull" then Some(!Nullish(actual))
    else None
  }

  // ----- One step -----

  /** The status an ASSERT_STATUS step expects: an empty value means 200. */
  function ExpectedStatus(step: TestStep): Option<int> {
    ParseInt(if step.value != "" then step.value else "200")
  }

  /** The error a step throws, given the last response; a comparison with NaN never holds. */
  function ErrorOf(env: Environment, step: TestStep, fetched: Option<Response>, last: Option<Response>)
    : Option<StepError>
  {
    match step.kind
    case HTTP_REQUEST => if fetched.None? then Some(FetchFailed) else None
    case ASSERT_STATUS =>
      if last.None? then Some(NoResponse)
      else if ExpectedStatus(step) != Some(last.value.status) then
        Some(UnexpectedStatus(ExpectedStatus(step), last.value.status))
      else None
    case ASSERT_RESPONSE =>
      if last.None? then Some(NoResponse)
      else if step.assertion.None? then Some(NoAssertion)
      else if step.assertion.value.path.None? then Some(NoPath)
      else
        var a := step.assertion.value;
        var actual := ValueAtPath(env.protos, last.value.body, a.path.value);
        var operator := if a.operator.Some? then a.operator.value else "equals";
        var passed := Holds(env, actual, a.expected, operator);
        if passed.None? then Some(UnknownOperator(operator))
        else if passed.value then None else Some(AssertionFailed(a.path.value, operator, a.expected, actual))
    case UNSUPPORTED => None
  }

  /** The last response once the first `k` steps have run. */
  function LastAfter(env: Environment, steps: seq<TestStep>, k: nat): Option<Response>
    requires k <= |steps|
  {
    if k == 0 then None
    else if steps[k - 1].kind.HTTP_REQUEST? && env.fetch(k - 1).Some? then env.fetch(k - 1)
    else LastAfter(env, steps, k - 1)
  }

  /** What step `k` throws when all steps before it have run. */
  function ErrorAt(env: Environment, steps: seq<TestStep>, k: nat): Option<StepError>
    requires k < |steps|
  {
    ErrorOf(env, steps[k], env.fetch(k), LastAfter(env, steps, k))
  }

  /** The context object; the response is stored on it between steps. */
  class TestExecutionContext {
    var lastResponse: Option<Response>

    constructor ()
      ensures lastResponse.None?
    {
      lastResponse := None;
    }
  }

  // ----- The runners -----

  class ApiRunner {
    const env: Environment

    constructor (env: Environment)
      ensures this.env == env
    {
      this.env := env;
    }

    method ExecuteStep(step: TestStep, i: nat, context: TestExecutionContext) returns (error: Option<StepError>)
      modifies context
      ensures error == ErrorOf(env, step, env.fetch(i), old(context.lastResponse))
      ensures context.lastResponse == if step.kind.HTTP_REQUEST? && env.fetch(i).Some? then env.fetch(i)
                                      else old(context.lastResponse)
    {
      match step.kind {
        case HTTP_REQUEST =>
          var response := env.fetch(i);
          if response.None? {
            return Some(FetchFailed);
          }
          context.lastResponse := response;
          return None;
        case ASSERT_STATUS =>
          if context.lastResponse.None? {
            return Some(NoResponse);
          }
          var expectedStatus := ParseInt(if step.value != "" then step.value else "200");
          return if expectedStatus != Some(context.lastResponse.value.status)
            then Some(UnexpectedStatus(expectedStatus, context.lastResponse.value.status)) else None;
        case ASSERT_RESPONSE =>
          if context.lastResponse.None? {
            return Some(NoResponse);
          }
          if step.assertion.None? {
            return Some(NoAssertion);
          }
          if step.assertion.value.path.None? {
            return Some(NoPath);
          }
          var actual := GetValueAtPath(env.protos, context.lastResponse.value.body, step.assertion.value.path.value);
          var operator := if step.assertion.value.operator.Some? then step.assertion.value.operator.value else "equals";
          var passed := Holds(env, actual, step.assertion.value.expected, operator);
          if passed.None? {
            return Some(UnknownOperator(operator));
          }
          return if passed.value then None
            else Some(AssertionFailed(step.assertion.value.path.value, operator, step.assertion.value.expected,
                                      actual));
        case UNSUPPORTED =>
          return None;
      }
    }

    /** Runs the steps in order up to the first that throws, on a fresh context. */
    method Execute(testSteps: Option<seq<TestStep>>) returns (r: ExecutionResult)
      ensures Report(env, if testSteps.Some? then testSteps.value else [], r)
    {
      var context := new TestExecutionContext();
      var stepResults: seq<StepResult> := [];
      var steps := if testSteps.Some? then testSteps.value else [];
      for i := 0 to |steps|
        invariant |stepResults| == i
        invariant forall k :: 0 <= k < i ==> stepResults[k] == StepResult(k, T.RPassed) && ErrorAt(env, steps, k).None?
        invariant context.lastResponse == LastAfter(env, steps, i)
      {
        var error := ExecuteStep(steps[i], i, context);
        if error.Some? {
          stepResults := stepResults + [StepResult(i, T.RFailed)];
          return ExecutionResult(T.RFailed, error, stepResults);
        }
        stepResults := stepResults + [StepResult(i, T.RPassed)];
      }
      return ExecutionResult(T.RPassed, None, stepResults);
    }
  }

  /** Step results are numbered from 0 in order; all passed except that a failed run ends with one
      that failed, the first step that throws; the run passed exactly when every step did. */
  ghost predicate Report(env: Environment, steps: seq<TestStep>, r: ExecutionResult) {
    && |r.stepResults| <= |steps|
    && (forall k :: 0 <= k < |r.stepResults| ==>
                      r.stepResults[k].stepIndex == k &&
                      (r.stepResults[k].status == T.RPassed <==> ErrorAt(env, steps, k).None?) &&
                      (k + 1 < |r.stepResults| ==> r.stepResults[k].status == T.RPassed))
    && match r.status
       case RPassed => |r.stepResults| == |steps| && r.errorMessage.None?
                       && forall k :: 0 <= k < |steps| ==> r.stepResults[k].status == T.RPassed
       case RFailed => |r.stepResults| > 0
                       && r.stepResults[|r.stepResults| - 1].status == T.RFailed
                       && r.errorMessage == ErrorAt(env, steps, |r.stepResults| - 1) && r.errorMessage.Some?
       case _ => false
  }

  class WebRunner {
    /** The simulated steps never throw. */
    method Execute(testSteps: Option<nat>) returns (r: ExecutionResult)
      ensures r.status == T.RPassed && |r.stepResults| == if testSteps.Some? then testSteps.value else 0
      ensures forall k :: 0 <= k < |r.stepResults| ==> r.stepResults[k] == StepResult(k, T.RPassed)
    {
      var stepResults: seq<StepResult> := [];
      var steps := if testSteps.Some? then testSteps.value else 0;
      for i := 0 to steps
        invariant |stepResults| == i
        invariant forall k :: 0 <= k < i ==> stepResults[k] == StepResult(k, T.RPassed)
      {
        stepResults := stepResults + [StepResult(i, T.RPassed)];
      }
      return ExecutionResult(T.RPassed, None, stepResults);
    }
  }

  // ----- What a verdict means -----

  /** A report is determined by the steps and what they meet: there is only one. */
  lemma {:induction false} ReportIsUnique(env: Environment, steps: seq<TestStep>,
                                                r: ExecutionResult, r': ExecutionResult)
    requires Report(env, steps, r) && Report(env, steps, r')
    ensures r.status == r'.status && |r.stepResults| == |r'.stepResults|
    ensures r.errorMessage == r'.errorMessage
  {
    var n, n' := |r.stepResults|, |r'.stepResults|;
    if r.status == T.RFailed {
      assert ErrorAt(env, steps, n - 1).Some?;
      if n' > n - 1 {
        assert r'.stepResults[n - 1].status != T.RPassed;
      }
    }
    if r'.status == T.RFailed {
      assert ErrorAt(env, steps, n' - 1).Some?;
      if n > n' - 1 {
        assert r.stepResults[n' - 1].status != T.RPassed;
      }
    }
  }

  /** `j` is the latest request step before step `k`. */
  ghost predicate LatestRequest(steps: seq<TestStep>, k: nat, j: nat) {
    j < k <= |steps| && steps[j].kind.HTTP_REQUEST? && forall i :: j < i < k ==> !steps[i].kind.HTTP_REQUEST?
  }

  lemma {:induction false} LastIsLatest(env: Environment, steps: seq<TestStep>, k: nat)
    requires k <= |steps| && forall i :: 0 <= i < k ==> ErrorAt(env, steps, i).None?
    requires LastAfter(env, steps, k).Some?
    ensures exists j :: LatestRequest(steps, k, j) && env.fetch(j) == LastAfter(env, steps, k)
  {
    if steps[k - 1].kind.HTTP_REQUEST? {
      assert ErrorAt(env, steps, k - 1).None?;
      assert LatestRequest(steps, k, k - 1);
    } else {
      LastIsLatest(env, steps, k - 1);
      var j :| LatestRequest(steps, k - 1, j) && env.fetch(j) == LastAfter(env, steps, k - 1);
      assert LatestRequest(steps, k, j);
    }
  }

  /** A passed run means what it says: each status assertion follows a request, and the response to
      the latest one before it has the expected status. */
  lemma {:induction false} PassedIsSound(env: Environment, steps: seq<TestStep>, r: ExecutionResult, k: nat)
    requires Report(env, steps, r) && r.status == T.RPassed
    requires k < |steps| && steps[k].kind.ASSERT_STATUS?
    ensures exists j :: LatestRequest(steps, k, j) && env.fetch(j).Some? &&
                        ExpectedStatus(steps[k]) == Some(env.fetch(j).value.status)
  {
    assert forall i :: 0 <= i < |steps| ==> r.stepResults[i].status == T.RPassed;
    forall i | 0 <= i < |steps|
      ensures ErrorAt(env, steps, i).None?
    {
      assert r.stepResults[i].status == T.RPassed;
    }
    assert ErrorAt(env, steps, k).None?;
    LastIsLatest(env, steps, k);
  }

  /** The statuses a runner reports are those the test-run saga counts. */
  lemma {:induction false} ReportedIsCounted(env: Environment, steps: seq<TestStep>, r: ExecutionResult, f: T.CaseFate)
    requires Report(env, steps, r) && f.runner == Some(r.status)
    ensures T.ShownRunner(f)
  {}

  // ----- What each step asks, without the code -----

  ghost predicate Contains(text: string, part: string) {
    exists before: string, after: string :: text == before + part + after
  }

  lemma {:induction false} IncludesIsContains(s: string, part: string)
    ensures Includes(s, part) <==> Contains(s, part)
  {
    if i :| 0 <= i <= |s| && part <= s[i..] {
      assert s == s[..i] + part + s[i + |part|..];
    }
    if before: string, after: string :| s == before + part + after {
      assert s[|before|..] == part + after;
      assert part <= s[|before|..];
    }
  }

  /** The same value of a kind that has no identity. */
  predicate SamePlain(a: Json, b: Json) {
    match (a, b)
    case (Undefined, Undefined) => true
    case (Null, Null) => true
    case (Bool(x), Bool(y)) => x == y
    case (Num(x), Num(y)) => x == y
    case (Str(x), Str(y)) => x == y
    case _ => false
  }

  /** What the four operators ask of the value found; any other operator is met by nothing. */
  ghost predicate Satisfies(env: Environment, actual: Json, operator: string, expected: Json) {
    || (operator == "equals" && SamePlain(actual, expected))
    || (operator == "contains" && Contains(env.render(actual), env.render(expected)))
    || (operator == "exists" && actual != Undefined)
    || (operator == "notNull" && actual != Undefined && actual != Null)
  }

  /** What step `k` asks, given that the steps before it were met: a request that is answered, or
      an assertion on the response to the latest request before it. */
  ghost predicate Met(env: Environment, steps: seq<TestStep>, k: nat)
    requires k < |steps|
  {
    match steps[k].kind
    case HTTP_REQUEST => env.fetch(k).Some?
    case UNSUPPORTED => true
    case ASSERT_STATUS =>
      exists j :: LatestRequest(steps, k, j) && env.fetch(j).Some? &&
                  ParseInt(if steps[k].value == "" then "200" else steps[k].value) == Some(env.fetch(j).value.status)
    case ASSERT_RESPONSE =>
      exists j :: LatestRequest(steps, k, j) && env.fetch(j).Some? &&
                  match steps[k].assertion
                  case Some(Assertion(Some(path), expected, operator)) =>
                    Satisfies(env, ValueAtPath(env.protos, env.fetch(j).value.body, path),
                              if operator.Some? then operator.value else "equals", expected)
                  case _ => false
  }

  lemma {:induction false} LatestIsOne(steps: seq<TestStep>, k: nat, j: nat, j': nat)
    requires LatestRequest(steps, k, j) && LatestRequest(steps, k, j')
    ensures j == j'
  {}

  /** The last response is that of the latest request. */
  lemma {:induction false} LatestIsLast(env: Environment, steps: seq<TestStep>, k: nat, j: nat)
    requires k <= |steps| && LatestRequest(steps, k, j) && env.fetch(j).Some?
    ensures LastAfter(env, steps, k) == env.fetch(j)
    decreases k
  {
    if j < k - 1 {
      LatestIsLast(env, steps, k - 1, j);
    }
  }

  /** A step that those before it allow to run throws nothing if and only if it is met. */
  lemma {:induction false} NoErrorIffMet(env: Environment, steps: seq<TestStep>, k: nat)
    requires k < |steps| && forall i :: 0 <= i < k ==> ErrorAt(env, steps, i).None?
    ensures ErrorAt(env, steps, k).None? <==> Met(env, steps, k)
  {
    var last := LastAfter(env, steps, k);
    if last.Some? {
      LastIsLatest(env, steps, k);
      var j :| LatestRequest(steps, k, j) && env.fetch(j) == last;
      forall j' | LatestRequest(steps, k, j')
        ensures j' == j
      {
        LatestIsOne(steps, k, j, j');
      }
      if steps[k].kind.ASSERT_RESPONSE? && steps[k].assertion.Some? && steps[k].assertion.value.path.Some? {
        var a := steps[k].assertion.value;
        var actual := ValueAtPath(env.protos, last.value.body, a.path.value);
        IncludesIsContains(env.render(actual), env.render(a.expected));
      }
    } else {
      forall j | LatestRequest(steps, k, j) && env.fetch(j).Some?
        ensures false
      {
        LatestIsLast(env, steps, k, j);
      }
    }
  }

  /** A run passes if and only if every step is met; if it fails, it fails at the first that is not. */
  lemma {:induction false} PassedIffAllMet(env: Environment, steps: seq<TestStep>, r: ExecutionResult)
    requires Report(env, steps, r)
    ensures r.status == T.RPassed <==> forall k :: 0 <= k < |steps| ==> Met(env, steps, k)
    ensures r.status != T.RPassed ==>
              var n := |r.stepResults|;
              0 < n <= |steps| && !Met(env, steps, n - 1) && forall k :: 0 <= k < n - 1 ==> Met(env, steps, k)
  {
    var n := |r.stepResults|;
    forall k | 0 <= k < n
      ensures k + 1 < n ==> ErrorAt(env, steps, k).None?
      ensures r.status == T.RPassed ==> ErrorAt(env, steps, k).None?
    {
      assert r.stepResults[k].status == T.RPassed <==> ErrorAt(env, steps, k).None?;
    }
    forall k | 0 <= k < n
      ensures ErrorAt(env, steps, k).None? <==> Met(env, steps, k)
    {
      NoErrorIffMet(env, steps, k);
    }
  }

  /** What a failing assertion says: the expected and the actual status, or the path, the operator
      and both values. */
  lemma {:induction false} FailureQuotes(env: Environment, steps: seq<TestStep>, k: nat, j: nat)
    requires k < |steps| && LatestRequest(steps, k, j) && env.fetch(j).Some?
    requires ErrorAt(env, steps, k).Some?
    ensures steps[k].kind.ASSERT_STATUS? ==>
              ErrorAt(env, steps, k).value ==
              UnexpectedStatus(ParseInt(if steps[k].value == "" then "200" else steps[k].value),
                               env.fetch(j).value.status)
    ensures steps[k].kind.ASSERT_RESPONSE? && steps[k].assertion.Some? && steps[k].assertion.value.path.Some? ==>
              var a := steps[k].assertion.value;
              var operator := if a.operator.Some? then a.operator.value else "equals";
              ErrorAt(env, steps, k).value ==
              if operator in {"equals", "contains", "exists", "notNull"}
              then AssertionFailed(a.path.value, operator, a.expected,
                                   ValueAtPath(env.protos, env.fetch(j).value.body, a.path.value))
              else UnknownOperator(operator)
  {
    LatestIsLast(env, steps, k, j);
  }
}
