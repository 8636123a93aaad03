/**
 The test-run saga: load the cases, mark the run RUNNING, run each case into a stored result row
 while counting, and write the final status.  Every database call and every runner may fail.
 */
module TestRunSaga {
  import opened Wrappers
  import opened SagaSpec
  import opened SagaOrder

  datatype RunStatus = PENDING | RUNNING | PASSED | FAILED | PARTIAL | ERROR | CANCELLED

  datatype ResultStatus = RPending | RRunning | RPassed | RFailed | RSkipped | RError

  datatype ResultRow = ResultRow(testRunId: string, testCaseId: string, status: ResultStatus)

  type Rows = map<string, ResultRow>

  /** What happens around one case: whether its row can be created and under which id, the status
      its runner reports (None when it throws) and whether the two possible updates fail. */
  datatype CaseFate = CaseFate(createFails: bool, newId: string, runner: Option<ResultStatus>,
                               updateFails: bool, errorUpdateFails: bool)

  datatype Counts = Counts(passed: nat, failed: nat, skipped: nat)

  // ----- Executing the cases -----

  /** `ids[k]` is the row of case `k`; `threw` when a call outside the inner try failed. */
  datatype Progress = Progress(rows: Rows, ids: seq<string>, counts: Counts, threw: bool)

  function Count(c: Counts, status: ResultStatus): Counts {
    match status
    case RPassed => c.(passed := c.passed + 1)
    case RFailed => c.(failed := c.failed + 1)
    case RError => c.(failed := c.failed + 1)
    case RSkipped => c.(skipped := c.skipped + 1)
    case RPending => c
    case RRunning => c
  }

  function ExecuteCase(p: Progress, runId: string, caseId: string, f: CaseFate): Progress {
    if f.createFails || f.newId in p.rows then p.(threw := true)
    else
      var rows := p.rows[f.newId := ResultRow(runId, caseId, RRunning)];
      if f.runner.Some? && !f.updateFails then
        Progress(rows[f.newId := ResultRow(runId, caseId, f.runner.value)], p.ids + [f.newId],
                 Count(p.counts, f.runner.value), false)
      else if f.errorUpdateFails then Progress(rows, p.ids, p.counts, true)
      else Progress(rows[f.newId := ResultRow(runId, caseId, RError)], p.ids + [f.newId],
                    p.counts.(failed := p.counts.failed + 1), false)
  }

  function ExecuteCases(rows: Rows, runId: string, cases: seq<string>, fate: nat -> CaseFate): Progress {
    if cases == [] then Progress(rows, [], Counts(0, 0, 0), false)
    else
      var k := |cases| - 1;
      var p := ExecuteCases(rows, runId, cases[..k], fate);
      if p.threw then p else ExecuteCase(p, runId, cases[k], fate(k))
  }

  /** The result table with the loop that fills it. */
  class TestRunService {
    var rows: Rows

    constructor (rows: Rows)
      ensures this.rows == rows
    {
      this.rows := rows;
    }

    method CreateResult(runId: string, caseId: string, f: CaseFate) returns (threw: bool)
      modifies this
      ensures threw == (f.createFails || f.newId in old(rows))
      ensures rows == if threw then old(rows) else old(rows)[f.newId := ResultRow(runId, caseId, RRunning)]
    {
      threw := f.createFails || f.newId in rows;
      if !threw {
        rows := rows[f.newId := ResultRow(runId, caseId, RRunning)];
      }
    }

    method UpdateResult(id: string, status: ResultStatus, fails: bool) returns (threw: bool)
      modifies this
      ensures threw == (fails || id !in old(rows))
      ensures rows == if threw then old(rows) else old(rows)[id := old(rows)[id].(status := status)]
    {
      threw := fails || id !in rows;
      if !threw {
        rows := rows[id := rows[id].(status := status)];
      }
    }

    /** The body of the loop; an error of the runner or of its update turns the row to ERROR. */
    method RunCase(runId: string, caseId: string, f: CaseFate, counts: Counts, ghost ids: seq<string>)
      returns (counts': Counts, threw: bool)
      modifies this
      ensures ExecuteCase(Progress(old(rows), ids, counts, false), runId, caseId, f) ==
              Progress(rows, if threw then ids else ids + [f.newId], counts', threw)
    {
      counts' := counts;
      threw := CreateResult(runId, caseId, f);
      if threw {
        return;
      }
      var failing := f.runner.None?;
      if !failing {
        failing := UpdateResult(f.newId, f.runner.value, f.updateFails);
      }
      if failing {
        threw := UpdateResult(f.newId, RError, f.errorUpdateFails);
        if !threw {
          counts' := counts.(failed := counts.failed + 1);
        }
        return;
      }
      match f.runner.value {
        case RPassed => counts' := counts.(passed := counts.passed + 1);
        case RFailed => counts' := counts.(failed := counts.failed + 1);
        case RError => counts' := counts.(failed := counts.failed + 1);
        case RSkipped => counts' := counts.(skipped := counts.skipped + 1);
        case _ =>
      }
    }

    method ExecuteTests(runId: string, testCases: seq<string>, fate: nat -> CaseFate)
      returns (counts: Counts, threw: bool, ghost ids: seq<string>)
      modifies this
      ensures ExecuteCases(old(rows), runId, testCases, fate) == Progress(rows, ids, counts, threw)
    {
      counts, threw, ids := Counts(0, 0, 0), false, [];
      for k := 0 to |testCases|
        invariant !threw && ExecuteCases(old(rows), runId, testCases[..k], fate) == Progress(rows, ids, counts, false)
      {
        assert testCases[..k + 1][..k] == testCases[..k];
        counts, threw := RunCase(runId, testCases[k], fate(k), counts, ids);
        if threw {
          Abandon(old(rows), runId, testCases, fate, k + 1);
          return;
        }
        ids := ids + [fate(k).newId];
      }
      assert testCases[..|testCases|] == testCases;
    }
  }

  /** Once a case has thrown, the cases after it are not touched. */
  lemma {:induction false} Abandon(rows: Rows, runId: string, cases: seq<string>, fate: nat -> CaseFate, k: nat)
    requires k <= |cases| && ExecuteCases(rows, runId, cases[..k], fate).threw
    ensures ExecuteCases(rows, runId, cases, fate) == ExecuteCases(rows, runId, cases[..k], fate)
  {
    if k == |cases| {
      assert cases[..k] == cases;
    } else {
      var p := cases[..|cases| - 1];
      assert p[..k] == cases[..k];
      Abandon(rows, runId, p, fate, k);
    }
  }

  // ----- Conservation -----

  function CountRows(rows: Rows, ids: seq<string>, statuses: set<ResultStatus>): nat {
    if ids == [] then 0
    else
      var id := ids[|ids| - 1];
      CountRows(rows, ids[..|ids| - 1], statuses) + if id in rows && rows[id].status in statuses then 1 else 0
  }

  lemma {:induction false} CountUntouched(a: Rows, b: Rows, ids: seq<string>, statuses: set<ResultStatus>)
    requires forall id :: id in ids ==> id in a && id in b && a[id] == b[id]
    ensures CountRows(a, ids, statuses) == CountRows(b, ids, statuses)
  {
    if ids != [] {
      CountUntouched(a, b, ids[..|ids| - 1], statuses);
    }
  }

  /** The rows of the cases run so far: one new row each, in order, and nothing else changed. */
  ghost predicate OneRowEach(before: Rows, runId: string, cases: seq<string>, p: Progress) {
    && |p.ids| == |cases|
    && (forall i, j :: 0 <= i < j < |p.ids| ==> p.ids[i] != p.ids[j])
    && (forall k :: 0 <= k < |p.ids| ==>
                      p.ids[k] !in before && p.ids[k] in p.rows
                      && p.rows[p.ids[k]].testRunId == runId && p.rows[p.ids[k]].testCaseId == cases[k])
    && (forall id :: id in p.rows <==> id in before || id in p.ids)
    && (forall id :: id in before ==> p.rows[id] == before[id])
  }

  ghost predicate CountsMatch(p: Progress) {
    && p.counts.passed == CountRows(p.rows, p.ids, {RPassed})
    && p.counts.failed == CountRows(p.rows, p.ids, {RFailed, RError})
    && p.counts.skipped == CountRows(p.rows, p.ids, {RSkipped})
    && |p.ids| == p.counts.passed + p.counts.failed + p.counts.skipped + CountRows(p.rows, p.ids, {RPending, RRunning})
  }

  lemma {:induction false} CountLast(rows: Rows, rows': Rows, ids: seq<string>, id: string, statuses: set<ResultStatus>)
    requires forall x :: x in ids ==> x in rows && x in rows' && rows[x] == rows'[x]
    requires id in rows'
    ensures CountRows(rows', ids + [id], statuses) ==
            CountRows(rows, ids, statuses) + if rows'[id].status in statuses then 1 else 0
  {
    assert (ids + [id])[..|ids|] == ids;
    CountUntouched(rows, rows', ids, statuses);
  }

  lemma {:induction false} CaseAddsRow(before: Rows, runId: string, cases: seq<string>, p: Progress, f: CaseFate)
    requires cases != [] && OneRowEach(before, runId, cases[..|cases| - 1], p)
    requires !ExecuteCase(p, runId, cases[|cases| - 1], f).threw
    ensures OneRowEach(before, runId, cases, ExecuteCase(p, runId, cases[|cases| - 1], f))
  {}

  /** The status in which a case that does not throw leaves its row. */
  function Ends(f: CaseFate): ResultStatus {
    if f.runner.Some? && !f.updateFails then f.runner.value else RError
  }

  lemma {:induction false} CaseShape(p: Progress, runId: string, caseId: string, f: CaseFate)
    requires !ExecuteCase(p, runId, caseId, f).threw
    ensures ExecuteCase(p, runId, caseId, f) ==
            Progress(p.rows[f.newId := ResultRow(runId, caseId, Ends(f))], p.ids + [f.newId],
                     Count(p.counts, Ends(f)), false)
    ensures f.newId !in p.rows
  {
    var row := ResultRow(runId, caseId, RRunning);
    assert p.rows[f.newId := row][f.newId := ResultRow(runId, caseId, Ends(f))]
        == p.rows[f.newId := ResultRow(runId, caseId, Ends(f))];
  }

  lemma {:induction false} CaseCounts(p: Progress, runId: string, caseId: string, f: CaseFate)
    requires CountsMatch(p) && (forall id :: id in p.ids ==> id in p.rows)
    requires !ExecuteCase(p, runId, caseId, f).threw
    ensures CountsMatch(ExecuteCase(p, runId, caseId, f))
  {
    CaseShape(p, runId, caseId, f);
    var rows := p.rows[f.newId := ResultRow(runId, caseId, Ends(f))];
    CountLast(p.rows, rows, p.ids, f.newId, {RPassed});
    CountLast(p.rows, rows, p.ids, f.newId, {RFailed, RError});
    CountLast(p.rows, rows, p.ids, f.newId, {RSkipped});
    CountLast(p.rows, rows, p.ids, f.newId, {RPending, RRunning});
  }

  /** When all cases ran: each has exactly one stored row, the counters are the rows' statuses, and
      they add up to the number of cases except for rows a runner left PENDING or RUNNING. */
  lemma {:induction false} Conservation(before: Rows, runId: string, cases: seq<string>, fate: nat -> CaseFate)
    requires !ExecuteCases(before, runId, cases, fate).threw
    ensures OneRowEach(before, runId, cases, ExecuteCases(before, runId, cases, fate))
    ensures CountsMatch(ExecuteCases(before, runId, cases, fate))
  {
    if cases != [] {
      var k := |cases| - 1;
      var p := ExecuteCases(before, runId, cases[..k], fate);
      Conservation(before, runId, cases[..k], fate);
      CaseAddsRow(before, runId, cases, p, fate(k));
      CaseCounts(p, runId, cases[k], fate(k));
    }
  }

  // ----- Verdicts -----

  /** The row of a case has the verdict of its own runner; ERROR if the runner threw or its verdict
      could not be stored. */
  ghost predicate VerdictKept(p: Progress, k: nat, f: CaseFate) {
    && k < |p.ids| && p.ids[k] == f.newId && p.ids[k] in p.rows
    && p.rows[p.ids[k]].status == match f.runner
                                  case Some(status) => if f.updateFails then RError else status
                                  case None => RError
  }

  lemma {:induction false} VerdictStays(p: Progress, runId: string, caseId: string, f: CaseFate, k: nat, g: CaseFate)
    requires VerdictKept(p, k, g) && !ExecuteCase(p, runId, caseId, f).threw
    ensures VerdictKept(ExecuteCase(p, runId, caseId, f), k, g)
  {
    CaseShape(p, runId, caseId, f);
  }

  lemma {:induction false} VerdictComes(p: Progress, runId: string, caseId: string, f: CaseFate)
    requires !ExecuteCase(p, runId, caseId, f).threw
    ensures VerdictKept(ExecuteCase(p, runId, caseId, f), |p.ids|, f)
  {
    CaseShape(p, runId, caseId, f);
  }

  lemma {:induction false} OneIdEach(before: Rows, runId: string, cases: seq<string>, fate: nat -> CaseFate)
    requires !ExecuteCases(before, runId, cases, fate).threw
    ensures |ExecuteCases(before, runId, cases, fate).ids| == |cases|
  {
    if cases != [] {
      OneIdEach(before, runId, cases[..|cases| - 1], fate);
    }
  }

  lemma {:induction false} VerdictsAreKept(before: Rows, runId: string, cases: seq<string>, fate: nat -> CaseFate,
                                           k: nat)
    requires !ExecuteCases(before, runId, cases, fate).threw && k < |cases|
    ensures VerdictKept(ExecuteCases(before, runId, cases, fate), k, fate(k))
  {
    var n := |cases| - 1;
    var p := ExecuteCases(before, runId, cases[..n], fate);
    if k < n {
      VerdictsAreKept(before, runId, cases[..n], fate, k);
      VerdictStays(p, runId, cases[n], fate(n), k, fate(k));
    } else {
      OneIdEach(before, runId, cases[..n], fate);
      VerdictComes(p, runId, cases[n], fate(n));
    }
  }

  /** What makes the step throw at case `k`: its row cannot be created, the new id being refused or
      taken, or neither a verdict nor ERROR can be stored. */
  predicate CaseThrows(before: Rows, fate: nat -> CaseFate, k: nat) {
    var f := fate(k);
    || f.createFails || f.newId in before || (exists j: nat :: j < k && fate(j).newId == f.newId)
    || ((f.runner.None? || f.updateFails) && f.errorUpdateFails)
  }

  /** The rows present when case `k` comes: those of before, and those of the cases before it. */
  lemma {:induction false} RowsSoFar(before: Rows, runId: string, cases: seq<string>, fate: nat -> CaseFate, id: string)
    requires !ExecuteCases(before, runId, cases, fate).threw
    ensures id in ExecuteCases(before, runId, cases, fate).rows <==>
            id in before || exists j: nat :: j < |cases| && fate(j).newId == id
  {
    if cases != [] {
      var n := |cases| - 1;
      RowsSoFar(before, runId, cases[..n], fate, id);
      CaseShape(ExecuteCases(before, runId, cases[..n], fate), runId, cases[n], fate(n));
    }
  }

  lemma {:induction false} OneThrows(p: Progress, runId: string, caseId: string, f: CaseFate)
    requires !p.threw
    ensures ExecuteCase(p, runId, caseId, f).threw <==>
            f.createFails || f.newId in p.rows || ((f.runner.None? || f.updateFails) && f.errorUpdateFails)
  {}

  /** The step throws if and only if some case makes it. */
  lemma {:induction false} ThrowsIff(before: Rows, runId: string, cases: seq<string>, fate: nat -> CaseFate)
    ensures ExecuteCases(before, runId, cases, fate).threw <==>
            exists k: nat :: k < |cases| && CaseThrows(before, fate, k)
  {
    if cases != [] {
      var n := |cases| - 1;
      var p := ExecuteCases(before, runId, cases[..n], fate);
      ThrowsIff(before, runId, cases[..n], fate);
      if !p.threw {
        RowsSoFar(before, runId, cases[..n], fate, fate(n).newId);
        OneThrows(p, runId, cases[n], fate(n));
        assert ExecuteCases(before, runId, cases, fate) == ExecuteCase(p, runId, cases[n], fate(n));
        assert |cases[..n]| == n;
        assert ExecuteCases(before, runId, cases, fate).threw <==> CaseThrows(before, fate, n);
      }
    }
  }

  /** The statuses the two shown runners report. */
  predicate ShownRunner(f: CaseFate) {
    f.runner.Some? ==> f.runner.value in {RPassed, RFailed, RError}
  }

  lemma {:induction false} ShownRunnersCountAll(before: Rows, runId: string, cases: seq<string>, fate: nat -> CaseFate)
    requires !ExecuteCases(before, runId, cases, fate).threw
    requires forall k: nat :: k < |cases| ==> ShownRunner(fate(k))
    ensures var c := ExecuteCases(before, runId, cases, fate).counts;
            c.skipped == 0 && c.passed + c.failed == |cases|
  {
    if cases != [] {
      ShownRunnersCountAll(before, runId, cases[..|cases| - 1], fate);
    }
  }

  // ----- The final status -----

  function FinalStatus(passed: nat, failed: nat): RunStatus {
    if failed == 0 && passed > 0 then PASSED
    else if passed == 0 && failed > 0 then FAILED
    else if passed > 0 && failed > 0 then PARTIAL
    else ERROR
  }

  /** The entity updates its counters and status in place. */
  class TestRun {
    var status: RunStatus
    var totalTests: nat
    var passedTests: nat
    var failedTests: nat
    var skippedTests: nat
    var finishedAt: Option<int>

    /** The counters are the caller's, whatever they add up to. */
    constructor (status: RunStatus, finishedAt: Option<int>, total: nat, passed: nat, failed: nat, skipped: nat)
      ensures this.status == status && this.finishedAt == finishedAt
      ensures totalTests == total && passedTests == passed && failedTests == failed && skippedTests == skipped
    {
      this.status, this.finishedAt := status, finishedAt;
      totalTests, passedTests, failedTests, skippedTests := total, passed, failed, skipped;
    }

    /** Tests the total counts beyond the counters, or short of them. */
    ghost function Excess(): int
      reads this
    {
      totalTests - (passedTests + failedTests + skippedTests)
    }

    method UpdateCounts(passed: nat, failed: nat, skipped: nat)
      modifies this
      ensures Excess() == 0 && status == old(status) && finishedAt == old(finishedAt)
      ensures passedTests == passed && failedTests == failed && skippedTests == skipped
    {
      passedTests, failedTests, skippedTests := passed, failed, skipped;
      totalTests := passed + failed + skipped;
    }

    method IncrementPassed()
      modifies this`passedTests, this`totalTests
      ensures passedTests == old(passedTests) + 1 && Excess() == old(Excess())
    {
      passedTests := passedTests + 1;
      totalTests := totalTests + 1;
    }

    method IncrementFailed()
      modifies this`failedTests, this`totalTests
      ensures failedTests == old(failedTests) + 1 && Excess() == old(Excess())
    {
      failedTests := failedTests + 1;
      totalTests := totalTests + 1;
    }

    method IncrementSkipped()
      modifies this`skippedTests, this`totalTests
      ensures skippedTests == old(skippedTests) + 1 && Excess() == old(Excess())
    {
      skippedTests := skippedTests + 1;
      totalTests := totalTests + 1;
    }

    /** The entity decides as the saga's last step does, from the same counters. */
    method Complete(now: int)
      modifies this`status, this`finishedAt
      ensures status == FinalStatus(passedTests, failedTests) && finishedAt == Some(now)
    {
      finishedAt := Some(now);
      if failedTests == 0 && passedTests > 0 {
        status := PASSED;
      } else if passedTests == 0 && failedTests > 0 {
        status := FAILED;
      } else if passedTests > 0 && failedTests > 0 {
        status := PARTIAL;
      } else {
        status := ERROR;
      }
    }
  }

  // ----- The saga -----

  datatype RunRow = RunRow(status: RunStatus, total: nat, counts: Counts)

  datatype World = World(run: Option<RunRow>, rows: Rows)

  datatype Res = Loaded(cases: seq<string>) | Started | Counted(counts: Counts) | Finished(status: RunStatus)

  /** What every call of one saga meets; `cases` is None when loading them throws. */
  datatype Fates = Fates(runId: string, cases: Option<seq<string>>, startFails: bool, caseFate: nat -> CaseFate,
                         completeFails: bool, revertFails: bool, errorMarkFails: bool)

  /** Updating a missing run throws, like a failing call. */
  function SetStatus(w: World, status: RunStatus, fails: bool): Option<World> {
    if fails || w.run.None? then None else Some(w.(run := Some(w.run.value.(status := status))))
  }

  function ExecLoad(f: Fates, w: World): (World, Outcome<Res>) {
    if w.run.None? || f.cases.None? then (w, Threw(Because("not found")))
    else if f.cases.value == [] then (w, Threw(Because("No test cases found for execution")))
    else (w, Done(Loaded(f.cases.value)))
  }

  function ExecStart(f: Fates, w: World): (World, Outcome<Res>) {
    match SetStatus(w, RUNNING, f.startFails)
    case None => (w, Threw(Because("update failed")))
    case Some(w') => (w', Done(Started))
  }

  function ExecTests(f: Fates, w: World, rs: map<string, Res>): (World, Outcome<Res>) {
    if !("LoadData" in rs && rs["LoadData"].Loaded?) then (w, Threw(Because("no test cases")))
    else
      var p := ExecuteCases(w.rows, f.runId, rs["LoadData"].cases, f.caseFate);
      (w.(rows := p.rows), if p.threw then Threw(Because("result store failed")) else Done(Counted(p.counts)))
  }

  function ExecComplete(f: Fates, w: World, rs: map<string, Res>): (World, Outcome<Res>) {
    var c := if "ExecuteTests" in rs && rs["ExecuteTests"].Counted? then rs["ExecuteTests"].counts else Counts(0, 0, 0);
    var status := FinalStatus(c.passed, c.failed);
    if f.completeFails || w.run.None? then (w, Threw(Because("update failed")))
    else (w.(run := Some(RunRow(status, c.passed + c.failed + c.skipped, c))), Done(Finished(status)))
  }

  /** A failing revert is caught and only logged. */
  function Revert(w: World, status: RunStatus, fails: bool): World {
    match SetStatus(w, status, fails) case None => w case Some(w') => w'
  }

  function TestStep(f: Fates, k: nat): SagaStep<World, Res>
    requires k < 4
  {
    var nothing := (w: World, rs: map<string, Res>, r: Option<Res>) => (w, None);
    if k == 0 then SagaStep("LoadData", 1.0, (w: World, rs: map<string, Res>) => ExecLoad(f, w), nothing, None, None)
    else if k == 1 then
      SagaStep("StartTestRun", 2.0, (w: World, rs: map<string, Res>) => ExecStart(f, w),
               (w: World, rs: map<string, Res>, r: Option<Res>) => (Revert(w, PENDING, f.revertFails), None),
               None, None)
    else if k == 2 then
      SagaStep("ExecuteTests", 3.0, (w: World, rs: map<string, Res>) => ExecTests(f, w, rs), nothing, None, None)
    else
      SagaStep("CompleteTestRun", 4.0, (w: World, rs: map<string, Res>) => ExecComplete(f, w, rs),
               (w: World, rs: map<string, Res>, r: Option<Res>) => (Revert(w, ERROR, f.errorMarkFails), None),
               None, None)
  }

  function TestSteps(f: Fates): seq<SagaStep<World, Res>> {
    seq(4, k requires 0 <= k < 4 => TestStep(f, k))
  }

  lemma {:induction false} TestStepsAreSorted(f: Fates)
    ensures SortSteps(TestSteps(f)) == TestSteps(f)
  {
    OrderedIsSorted(TestSteps(f));
  }

  lemma {:induction false} ForwardUnfolds(f: Fates, w: World)
    returns (s0: StepRun<World, Res>, s1: StepRun<World, Res>, s2: StepRun<World, Res>, s3: StepRun<World, Res>)
    ensures s0 == ExecStep(TestStep(f, 0), w, map[]) && s1 == ExecStep(TestStep(f, 1), s0.world, s0.results)
    ensures s2 == ExecStep(TestStep(f, 2), s1.world, s1.results) && s3 == ExecStep(TestStep(f, 3), s2.world, s2.results)
    ensures var r := RunFrom(TestSteps(f), 0, w, map[]);
            if s0.error.Some? then r.done == 0 && r.world == s0.world && r.error == s0.error
            else if s1.error.Some? then r.done == 1 && r.world == s1.world && r.error == s1.error
            else if s2.error.Some? then r.done == 2 && r.world == s2.world && r.error == s2.error
            else if s3.error.Some? then r.done == 3 && r.world == s3.world && r.error == s3.error
            else r.done == 4 && r.world == s3.world
  {
    var steps := TestSteps(f);
    s0 := ExecStep(steps[0], w, map[]);
    s1 := ExecStep(steps[1], s0.world, s0.results);
    s2 := ExecStep(steps[2], s1.world, s1.results);
    s3 := ExecStep(steps[3], s2.world, s2.results);
    var r4 := RunFrom(steps, 4, s3.world, s3.results);
    var r3 := RunFrom(steps, 3, s2.world, s2.results);
    var r2 := RunFrom(steps, 2, s1.world, s1.results);
    var r1 := RunFrom(steps, 1, s0.world, s0.results);
  }

  lemma {:induction false} UndoUnfolds(f: Fates, w: World, rs: map<string, Res>, k: nat)
    requires k <= 3
    ensures UndoAll(Reverse(TestSteps(f)[..k]), w, rs).world == if k >= 2 then Revert(w, PENDING, f.revertFails) else w
    decreases k
  {
    var steps := TestSteps(f);
    if k > 0 {
      var undone := Reverse(steps[..k]);
      assert undone[1..] == Reverse(steps[..k - 1]);
      assert undone[0] == TestStep(f, k - 1);
      var w' := UndoStep(undone[0], w, rs).world;
      UndoUnfolds(f, w', rs, k - 1);
    }
  }

  /** The forward part of a run, and what compensating it leaves. */
  lemma {:induction false} TestStart(f: Fates, w: World) returns (r: ForwardRun<World, Res>)
    ensures r == RunFrom(TestSteps(f), 0, w, map[])
    ensures r.done < 4 ==> r.error.value.Because?
    ensures r.done < 2 ==> r.world == w
    ensures 2 <= r.done < 4 ==>
              f.cases.Some? && w.run.Some? &&
              r.world == World(Some(w.run.value.(status := RUNNING)),
                               ExecuteCases(w.rows, f.runId, f.cases.value, f.caseFate).rows)
    ensures r.done == 4 ==>
              f.cases.Some? && f.cases.value != [] &&
              var p := ExecuteCases(w.rows, f.runId, f.cases.value, f.caseFate);
              !p.threw && r.world == World(Some(RunRow(FinalStatus(p.counts.passed, p.counts.failed),
                                                       p.counts.passed + p.counts.failed + p.counts.skipped, p.counts)),
                                           p.rows)
  {
    r := RunFrom(TestSteps(f), 0, w, map[]);
    var s0, s1, s2, s3 := ForwardUnfolds(f, w);
  }

  /** What the run's row is when the saga returns, for each place where it may have stopped. */
  lemma {:induction false} FinalRunRow(f: Fates, w: World)
    ensures var run := RunSteps(TestSteps(f), w);
            && (run.done < 2 ==> run.world == w)
            && (2 <= run.done < 4 ==>
                  f.cases.Some? && w.run.Some? &&
                  run.world == World(Some(w.run.value.(status := if f.revertFails then RUNNING else PENDING)),
                                     ExecuteCases(w.rows, f.runId, f.cases.value, f.caseFate).rows))
            && (run.done == 4 ==>
                  f.cases.Some? && f.cases.value != [] &&
                  var p := ExecuteCases(w.rows, f.runId, f.cases.value, f.caseFate);
                  !p.threw && run.world.rows == p.rows &&
                  run.world.run == Some(RunRow(FinalStatus(p.counts.passed, p.counts.failed),
                                               p.counts.passed + p.counts.failed + p.counts.skipped, p.counts)))
  {
    var r := TestStart(f, w);
    if r.done < 4 {
      UndoUnfolds(f, r.world, r.results, r.done);
    }
  }

  /** When the run is left RUNNING, read off the calls' answers: if there is nothing to load or
      marking it fails, exactly when it was RUNNING before; otherwise exactly when a later step
      fails and so does the update that should revert it. */
  lemma {:induction false} LeftRunning(f: Fates, w: World)
    ensures var run := RunSteps(TestSteps(f), w);
            run.world.run.Some? && run.world.run.value.status == RUNNING <==>
            w.run.Some? &&
            if f.cases.None? || f.cases.value == [] || f.startFails then w.run.value.status == RUNNING
            else (ExecuteCases(w.rows, f.runId, f.cases.value, f.caseFate).threw || f.completeFails) && f.revertFails
  {
    FinalRunRow(f, w);
    var s0, s1, s2, s3 := ForwardUnfolds(f, w);
  }

  /** Two cases at hand: the final update and the reverting one both fail, and a run that is already
      RUNNING has no test cases. */
  lemma {:induction false} LeftRunningHappens(fate: nat -> CaseFate)
    ensures var f := Fates("run", Some(["case"]), false, fate, true, true, false);
            var after := RunSteps(TestSteps(f), World(Some(RunRow(PENDING, 0, Counts(0, 0, 0))), map[])).world.run;
            after.Some? && after.value.status == RUNNING
    ensures var f := Fates("run", Some([]), false, fate, false, false, false);
            var after := RunSteps(TestSteps(f), World(Some(RunRow(RUNNING, 0, Counts(0, 0, 0))), map[])).world.run;
            after.Some? && after.value.status == RUNNING
  {
    LeftRunning(Fates("run", Some(["case"]), false, fate, true, true, false),
                World(Some(RunRow(PENDING, 0, Counts(0, 0, 0))), map[]));
    LeftRunning(Fates("run", Some([]), false, fate, false, false, false),
                World(Some(RunRow(RUNNING, 0, Counts(0, 0, 0))), map[]));
  }

  /** With the shown runners a completed run is PASSED when all rows passed, FAILED when none did
      and PARTIAL otherwise, and its stored total is the number of cases. */
  lemma {:induction false} CompletedRunStatus(f: Fates, w: World)
    requires RunSteps(TestSteps(f), w).done == 4
    requires forall k: nat :: ShownRunner(f.caseFate(k))
    ensures RunSteps(TestSteps(f), w).world.run.Some?
    ensures f.cases.Some?
    ensures var row := RunSteps(TestSteps(f), w).world.run.value;
            var p := ExecuteCases(w.rows, f.runId, f.cases.value, f.caseFate);
            var passed := CountRows(p.rows, p.ids, {RPassed});
            && OneRowEach(w.rows, f.runId, f.cases.value, p) && RunSteps(TestSteps(f), w).world.rows == p.rows
            && row.total == |f.cases.value|
            && row.status == (if passed == |f.cases.value| then PASSED else if passed == 0 then FAILED else PARTIAL)
  {
    FinalRunRow(f, w);
    Conservation(w.rows, f.runId, f.cases.value, f.caseFate);
    ShownRunnersCountAll(w.rows, f.runId, f.cases.value, f.caseFate);
  }

  /** The final status of a completed run, whatever its runners: by what passed and what failed. */
  lemma {:induction false} CompletedRunCounts(f: Fates, w: World)
    requires RunSteps(TestSteps(f), w).done == 4
    ensures f.cases.Some? && RunSteps(TestSteps(f), w).world.run.Some?
    ensures var row := RunSteps(TestSteps(f), w).world.run.value;
            var p := ExecuteCases(w.rows, f.runId, f.cases.value, f.caseFate);
            var passed, failed := CountRows(p.rows, p.ids, {RPassed}), CountRows(p.rows, p.ids, {RFailed, RError});
            && row.counts == Counts(passed, failed, CountRows(p.rows, p.ids, {RSkipped}))
            && row.total == row.counts.passed + row.counts.failed + row.counts.skipped
            && (row.status == PASSED <==> passed > 0 && failed == 0)
            && (row.status == FAILED <==> passed == 0 && failed > 0)
            && (row.status == PARTIAL <==> passed > 0 && failed > 0)
            && (row.status == ERROR <==> passed == 0 && failed == 0)
  {
    FinalRunRow(f, w);
    Conservation(w.rows, f.runId, f.cases.value, f.caseFate);
  }
}
