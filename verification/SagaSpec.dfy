/**
 What one saga run does, as functions over an arbitrary state `W` that the steps act on.
 Outcomes are not fixed: every step is a function of the state and of the results so far, and
 every theorem quantifies over all of them.
 */
module SagaSpec {
  import opened Wrappers

  /** What is thrown: an error with a message, or null or undefined, whose message cannot be read. */
  datatype Reason = NoReason | Because(message: string)

  /** What reading the message of nothing throws. */
  const CannotReadMessage := Because("Cannot read the message of null or undefined")

  datatype Outcome<+R> = Done(result: R) | Threw(error: Reason)

  /** The step record: `execute` and `compensate` see the results stored so far.  `compensate`
      and the two optional hooks answer what they throw, if anything. */
  datatype SagaStep<!W, !R> = SagaStep(
    name: string,
    order: real,
    execute: (W, map<string, R>) -> (W, Outcome<R>),
    compensate: (W, map<string, R>, Option<R>) -> (W, Option<Reason>),
    onStepComplete: Option<(W, map<string, R>, R) -> (W, Option<Reason>)>,
    onStepFailed: Option<(W, map<string, R>, Reason) -> (W, Option<Reason>)>)

  datatype SagaEvent =
    | SagaStarted
    | SagaCompleted
    | SagaFailed
    | SagaCompensating
    | SagaCompensated
    | StepStarted(step: string)
    | StepCompleted(step: string)
    | StepFailed(step: string)
    | StepCompensating(step: string)
    | StepCompensated(step: string)

  datatype SagaStatus = InProgress | Completed | Compensated | Failed

  function StatusName(s: SagaStatus): string {
    match s
    case InProgress => "IN_PROGRESS"
    case Completed => "COMPLETED"
    case Compensated => "COMPENSATED"
    case Failed => "FAILED"
  }

  /** `Map.get`. */
  function Lookup<R>(results: map<string, R>, name: string): Option<R> {
    if name in results then Some(results[name]) else None
  }

  // ----- One step -----

  datatype StepRun<W, R> = StepRun(world: W, results: map<string, R>, events: seq<SagaEvent>, error: Option<Reason>)

  /** The failure hook runs on the way out; if it throws, its error replaces the step's. */
  function FailStep<W, R>(step: SagaStep<W, R>, w: W, results: map<string, R>, error: Reason): StepRun<W, R> {
    match step.onStepFailed
    case None => StepRun(w, results, [StepStarted(step.name)], Some(error))
    case Some(hook) =>
      var (w', thrown) := hook(w, results, error);
      StepRun(w', results, [StepStarted(step.name)], Some(if thrown.Some? then thrown.value else error))
  }

  /** The result is stored before the completion hook runs, so a throwing hook fails a step
      whose result stays recorded. */
  function ExecStep<W, R>(step: SagaStep<W, R>, w: W, results: map<string, R>): StepRun<W, R> {
    match step.execute(w, results)
    case (w1, Threw(error)) => FailStep(step, w1, results, error)
    case (w1, Done(r)) =>
      var results' := results[step.name := r];
      var (w2, thrown) :=
        if step.onStepComplete.Some? then step.onStepComplete.value(w1, results', r) else (w1, None);
      if thrown.Some? then FailStep(step, w2, results', thrown.value)
      else StepRun(w2, results', [StepStarted(step.name), StepCompleted(step.name)], None)
  }

  // ----- The forward loop -----

  /** `done` counts the completed steps; they are a prefix of the list that was run. */
  datatype ForwardRun<W, R> =
    ForwardRun(world: W, results: map<string, R>, events: seq<SagaEvent>, done: nat, error: Option<Reason>)

  /** The run stopped at a step of the list, with an error, or completed them all. */
  predicate StopsIn<W, R>(steps: seq<SagaStep<W, R>>, f: ForwardRun<W, R>) {
    f.done <= |steps| && (f.error.None? <==> f.done == |steps|)
  }

  function RunFrom<W, R>(steps: seq<SagaStep<W, R>>, i: nat, w: W, results: map<string, R>): (run: ForwardRun<W, R>)
    requires i <= |steps|
    ensures i <= run.done && StopsIn(steps, run)
    decreases |steps| - i
  {
    if i == |steps| then ForwardRun(w, results, [], i, None)
    else
      var s := ExecStep(steps[i], w, results);
      if s.error.Some? then ForwardRun(s.world, s.results, s.events, i, s.error)
      else
        var rest := RunFrom(steps, i + 1, s.world, s.results);
        rest.(events := s.events + rest.events)
  }

  // ----- Compensation, in the order given -----

  /** `escaped` when the logging of an error failed in its turn, for want of a message. */
  datatype UndoRun<W> = UndoRun(world: W, events: seq<SagaEvent>, escaped: bool)

  function UndoStep<W, R>(step: SagaStep<W, R>, w: W, results: map<string, R>): UndoRun<W> {
    var (w', thrown) := step.compensate(w, results, Lookup(results, step.name));
    UndoRun(w', [StepCompensating(step.name)] + if thrown.None? then [StepCompensated(step.name)] else [],
            thrown == Some(NoReason))
  }

  /** An undo that throws an error is passed over; one that throws nothing readable ends the loop. */
  function UndoAll<W, R>(steps: seq<SagaStep<W, R>>, w: W, results: map<string, R>): UndoRun<W> {
    if steps == [] then UndoRun(w, [], false)
    else
      var u := UndoStep(steps[0], w, results);
      if u.escaped then u
      else
        var rest := UndoAll(steps[1..], u.world, results);
        rest.(events := u.events + rest.events)
  }

  function Reverse<T>(s: seq<T>): (r: seq<T>)
    ensures |r| == |s|
    ensures forall k :: 0 <= k < |s| ==> r[k] == s[|s| - 1 - k]
  {
    if s == [] then [] else [s[|s| - 1]] + Reverse(s[..|s| - 1])
  }

  // ----- The whole run, on steps already sorted -----

  /** `aborted` when the outermost catch block ended the run. */
  datatype SagaRun<W, R> = SagaRun(world: W, results: map<string, R>, events: seq<SagaEvent>, done: nat,
                                   error: Option<Reason>, aborted: bool)

  /** `if (failedStep)` tests the failed step's name for truth: an empty name counts as none. */
  predicate ReportsFailure<W, R>(steps: seq<SagaStep<W, R>>, done: nat) {
    done < |steps| && steps[done].name != ""
  }

  /** The catch block of the loop.  It reads the error's message first: without one, nothing more
      is published and nothing is compensated. */
  function Recover<W, R>(steps: seq<SagaStep<W, R>>, f: ForwardRun<W, R>): UndoRun<W>
    requires StopsIn(steps, f)
  {
    match f.error
    case None => UndoRun(f.world, [], false)
    case Some(NoReason) => UndoRun(f.world, [], true)
    case Some(Because(_)) =>
      var u := UndoAll(Reverse(steps[..f.done]), f.world, f.results);
      u.(events := [StepFailed(steps[f.done].name), SagaCompensating] + u.events)
  }

  function LastEvent<W, R>(steps: seq<SagaStep<W, R>>, done: nat, aborted: bool): SagaEvent {
    if aborted then SagaFailed else if ReportsFailure(steps, done) then SagaCompensated else SagaCompleted
  }

  /** What a run publishes once it has started. */
  function LaterEvents<W, R>(steps: seq<SagaStep<W, R>>, f: ForwardRun<W, R>): seq<SagaEvent>
    requires StopsIn(steps, f)
  {
    var u := Recover(steps, f);
    f.events + u.events + [LastEvent(steps, f.done, u.escaped)]
  }

  function FinishRun<W, R>(steps: seq<SagaStep<W, R>>, f: ForwardRun<W, R>): SagaRun<W, R>
    requires StopsIn(steps, f)
  {
    var u := Recover(steps, f);
    SagaRun(u.world, f.results, [SagaStarted] + LaterEvents(steps, f), f.done, f.error, u.escaped)
  }

  function RunSteps<W, R>(steps: seq<SagaStep<W, R>>, w: W): (run: SagaRun<W, R>)
    ensures run.done <= |steps|
  {
    FinishRun(steps, RunFrom(steps, 0, w, map[]))
  }

  function StatusOf<W, R>(steps: seq<SagaStep<W, R>>, run: SagaRun<W, R>): SagaStatus {
    if run.aborted then Failed else if ReportsFailure(steps, run.done) then Compensated else Completed
  }

  function NamesOf<W, R>(steps: seq<SagaStep<W, R>>): (names: seq<string>)
    ensures |names| == |steps|
    ensures forall k :: 0 <= k < |steps| ==> names[k] == steps[k].name
  {
    seq(|steps|, k requires 0 <= k < |steps| => steps[k].name)
  }

  /** Concatenation is associative; named because the solver does not see it unaided. */
  lemma {:induction false} Join<T>(a: seq<T>, b: seq<T>, c: seq<T>)
    ensures a + (b + c) == (a + b) + c
  {}

  predicate Distinct(names: seq<string>) {
    forall i, j :: 0 <= i < j < |names| ==> names[i] != names[j]
  }
}
