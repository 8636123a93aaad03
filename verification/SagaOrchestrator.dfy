/**
 The orchestrator as the source runs it: a context updated in place, a list of completed steps,
 an optional publisher whose errors are swallowed and an optional store whose `save` may reject
 the run and whose `update` may fail it.  Every method is proved against `SagaPublishing`, the run
 under any publisher; `HarmlessPublisher` there says when that is the run of `SagaSpec`.
 */
module SagaOrchestrator {
  import opened Wrappers
  import opened SagaSpec
  import opened SagaOrder
  import opened SagaPublishing
  import SagaTheorems
  import opened StateStore

  class EventPublisher {
    /** Every event handed to `publish`, whether or not it threw. */
    var attempts: seq<SagaEvent>
    const answers: (nat, SagaEvent) -> Option<Reason>

    constructor (answers: (nat, SagaEvent) -> Option<Reason>)
      ensures attempts == [] && this.answers == answers
    {
      attempts, this.answers := [], answers;
    }

    /** Answers what it throws, if anything. */
    method Publish(event: SagaEvent) returns (thrown: Option<Reason>)
      modifies this
      ensures attempts == old(attempts) + [event]
      ensures thrown == answers(|old(attempts)|, event)
    {
      thrown := answers(|attempts|, event);
      attempts := attempts + [event];
    }
  }

  /** A state store behind a connection that may fail on `save` or on `update`. */
  class StoreClient {
    const store: SagaStateStore
    const saveError: Option<Reason>
    const updateError: Option<Reason>

    constructor (store: SagaStateStore, saveError: Option<Reason>, updateError: Option<Reason>)
      ensures this.store == store && this.saveError == saveError && this.updateError == updateError
    {
      this.store, this.saveError, this.updateError := store, saveError, updateError;
    }

    method Save(sagaId: string, state: State, now: int) returns (error: Option<Reason>)
      modifies store
      ensures error == saveError
      ensures store.store == if error.Some? then old(store.store) else Saved(old(store.store), sagaId, state, now)
    {
      error := saveError;
      if error.None? {
        store.Save(sagaId, state, now);
      }
    }

    method Update(sagaId: string, state: State, now: int) returns (error: Option<Reason>)
      modifies store
      ensures error == updateError
      ensures store.store == if error.Some? then old(store.store) else Updated(old(store.store), sagaId, state, now)
    {
      error := updateError;
      if error.None? {
        store.Update(sagaId, state, now);
      }
    }
  }

  class SagaContext<R> {
    const sagaId: string
    var stepResults: map<string, R>
    var completedAt: Option<int>
    var failedAt: Option<int>

    constructor (sagaId: string)
      ensures this.sagaId == sagaId && stepResults == map[] && completedAt.None? && failedAt.None?
    {
      this.sagaId, stepResults, completedAt, failedAt := sagaId, map[], None, None;
    }
  }

  datatype SagaResult = SagaResult(
    status: SagaStatus,
    completedSteps: seq<string>,
    failedStep: Option<string>,
    error: Option<Reason>)

  /** What `execute` answers for a run, given what the store's update threw. */
  function ResultOf<W, R>(sorted: seq<SagaStep<W, R>>, run: SagaRun<W, R>, thrown: Option<Reason>): SagaResult
    requires run.done <= |sorted|
  {
    SagaResult(if thrown.Some? then Failed else StatusOf(sorted, run),
               NamesOf(sorted[..run.done]),
               if run.done < |sorted| then Some(sorted[run.done].name) else None,
               if thrown.Some? then thrown else if run.aborted then Some(CannotReadMessage) else run.error)
  }

  /** What the caller gets: None when the call rejects, because the outermost catch could not
      publish SAGA_FAILED or could not read what the update threw. */
  function AnswerOf<W, R>(sorted: seq<SagaStep<W, R>>, p: PublishedRun<W, R>, thrown: Option<Reason>, chokes: bool)
    : Option<SagaResult>
    requires p.run.done <= |sorted|
  {
    if p.rejected || thrown == Some(NoReason) || (thrown.Some? && chokes) then None
    else Some(ResultOf(sorted, p.run, thrown))
  }

  function InitialState(sagaId: string): State {
    map["status" := Text(StatusName(InProgress)), "context" := Context(sagaId), "completedSteps" := Names([])]
  }

  function FinalState(sagaId: string, status: SagaStatus, completed: seq<string>,
                      failed: Option<string>, duration: int): State {
    map["status" := Text(StatusName(status)), "context" := Context(sagaId), "completedSteps" := Names(completed),
        "failedStep" := (if failed.Some? then Text(failed.value) else Undefined), "duration" := At(duration)]
  }

  /** What `Execute` wrote is what `getStatus` answers: IN_PROGRESS while the saga runs, and the
      returned status after it returned, until one TTL has passed since the write; other sagas,
      reads and sweeps, before, during and after, make no difference. */
  lemma {:induction false} StatusFollowsRun(pre: seq<Op>, mid: seq<Op>, post: seq<Op>, sagaId: string,
                                            r: SagaResult, startTime: int, endTime: int, now: int)
    requires Quiet(pre, sagaId) && Quiet(mid, sagaId) && Quiet(post, sagaId)
    requires var final := FinalState(sagaId, r.status, r.completedSteps, r.failedStep, endTime - startTime);
             Monotone(pre + [Save(sagaId, InitialState(sagaId), startTime)] + mid +
                      [Update(sagaId, final, endTime)] + post, now)
    ensures var during := pre + [Save(sagaId, InitialState(sagaId), startTime)] + mid;
            StatusAt(Run(during), sagaId, endTime) ==
            if startTime + TTL_MS >= endTime then Some(Text("IN_PROGRESS")) else None
    ensures var final := FinalState(sagaId, r.status, r.completedSteps, r.failedStep, endTime - startTime);
            var after := pre + [Save(sagaId, InitialState(sagaId), startTime)] + mid +
                         [Update(sagaId, final, endTime)] + post;
            StatusAt(Run(after), sagaId, now) ==
            if endTime + TTL_MS >= now then Some(Text(StatusName(r.status))) else None
  {
    StatusAgreement(pre, mid, post, sagaId, InitialState(sagaId), startTime,
                    FinalState(sagaId, r.status, r.completedSteps, r.failedStep, endTime - startTime), endTime, now);
  }

  /** The history of the store around one run, with whatever else happens before, during and after. */
  function Written<W, R>(sorted: seq<SagaStep<W, R>>, run: SagaRun<W, R>, pre: seq<Op>, mid: seq<Op>, post: seq<Op>,
                         sagaId: string, startTime: int, endTime: int): seq<Op>
    requires run.done <= |sorted|
  {
    var r := ResultOf(sorted, run, None);
    var saved := pre + [Save(sagaId, InitialState(sagaId), startTime)] + mid;
    if run.aborted then saved + post
    else saved + [Update(sagaId, FinalState(sagaId, r.status, r.completedSteps, r.failedStep, endTime - startTime),
                         endTime)] + post
  }

  /** Without an update, the store goes on holding IN_PROGRESS. */
  lemma {:induction false} StaysInProgress(pre: seq<Op>, mid: seq<Op>, sagaId: string, startTime: int, now: int)
    requires Quiet(pre, sagaId) && Quiet(mid, sagaId)
    requires Monotone(pre + [Save(sagaId, InitialState(sagaId), startTime)] + mid, now)
    ensures StatusAt(Run(pre + [Save(sagaId, InitialState(sagaId), startTime)] + mid), sagaId, now) ==
            if startTime + TTL_MS >= now then Some(Text("IN_PROGRESS")) else None
  {
    var h := pre + [Save(sagaId, InitialState(sagaId), startTime)] + mid;
    var longer := h + [Update(sagaId, InitialState(sagaId), now)] + [];
    assert Monotone(longer, now) by {
      forall i | 0 <= i < |h| ensures longer[i] == h[i] {}
    }
    StatusAgreement(pre, mid, [], sagaId, InitialState(sagaId), startTime, InitialState(sagaId), now, now);
  }

  /** A store that never throws: until one TTL passes, the status it holds is the returned one if
      and only if no attempt or undo of the run lacks a reason where it is read.  A run in which one
      does is FAILED, and stays IN_PROGRESS there. */
  lemma {:induction false} StatusTellsResultIff<W(!new), R(!new)>(
    sorted: seq<SagaStep<W, R>>, w: W, pre: seq<Op>, mid: seq<Op>, post: seq<Op>, sagaId: string,
    startTime: int, endTime: int, now: int)
    requires Quiet(pre, sagaId) && Quiet(mid, sagaId) && Quiet(post, sagaId)
    requires Monotone(Written(sorted, RunSteps(sorted, w), pre, mid, post, sagaId, startTime, endTime), now)
    requires now <= TTL_MS + if SagaTheorems.LacksReason(sorted, w) then startTime else endTime
    ensures var run := RunSteps(sorted, w);
            var stored := StatusAt(Run(Written(sorted, run, pre, mid, post, sagaId, startTime, endTime)), sagaId, now);
            stored == Some(Text(StatusName(ResultOf(sorted, run, None).status))) <==>
            !SagaTheorems.LacksReason(sorted, w)
  {
    var run := RunSteps(sorted, w);
    SagaTheorems.AbortedIff(sorted, w);
    if run.aborted {
      Join(pre + [Save(sagaId, InitialState(sagaId), startTime)], mid, post);
      StaysInProgress(pre, mid + post, sagaId, startTime, now);
    } else {
      StatusFollowsRun(pre, mid, post, sagaId, ResultOf(sorted, run, None), startTime, endTime, now);
    }
  }

  // ----- What a result tells -----

  /** The names of the first `n` sorted steps, in order. */
  predicate AreFirst<W, R>(names: seq<string>, sorted: seq<SagaStep<W, R>>, n: nat) {
    |names| == n <= |sorted| && forall j :: 0 <= j < n ==> names[j] == sorted[j].name
  }

  /** The completed steps are the names of those before the first failure, in order, or of all; the
      failed step is the first failure's, or none; whatever was thrown later. */
  lemma {:induction false} ResultTellsSteps<W(!new), R(!new)>(sorted: seq<SagaStep<W, R>>, w: W, thrown: Option<Reason>)
    ensures var r := ResultOf(sorted, RunSteps(sorted, w), thrown);
            && (forall k: nat :: SagaTheorems.FirstFailure(sorted, w, k) ==>
                              AreFirst(r.completedSteps, sorted, k) && r.failedStep == Some(sorted[k].name))
            && ((forall k: nat :: !SagaTheorems.FirstFailure(sorted, w, k)) ==>
                  AreFirst(r.completedSteps, sorted, |sorted|) && r.failedStep == None)
  {
    var run := RunSteps(sorted, w);
    forall k: nat
      ensures SagaTheorems.FirstFailure(sorted, w, k) <==> run.error.Some? && k == run.done
    {
      SagaTheorems.FirstFailureIsDone(sorted, w, k);
    }
    if run.done < |sorted| {
      assert SagaTheorems.FirstFailure(sorted, w, run.done);
    }
  }

  /** A run in which no reason is missing answers with the first failure's own error, and is
      COMPENSATED if that step has a name, else COMPLETED; one in which a reason is missing is FAILED
      for want of it, and one whose outcome cannot be stored is FAILED with what the store threw. */
  lemma {:induction false} ResultTellsOutcome<W(!new), R(!new)>(sorted: seq<SagaStep<W, R>>, w: W,
                                                                 thrown: Option<Reason>)
    ensures var r := ResultOf(sorted, RunSteps(sorted, w), thrown);
            && (thrown.Some? ==> r.status == Failed && r.error == thrown)
            && (thrown.None? && SagaTheorems.LacksReason(sorted, w) ==>
                  r.status == Failed && r.error == Some(CannotReadMessage))
            && (thrown.None? && !SagaTheorems.LacksReason(sorted, w) ==>
                  && (forall k: nat :: SagaTheorems.FirstFailure(sorted, w, k) ==>
                                    r.error == SagaTheorems.Attempt(sorted, w, k).error &&
                                    r.status == if sorted[k].name != "" then Compensated else Completed)
                  && ((forall k: nat :: !SagaTheorems.FirstFailure(sorted, w, k)) ==>
                        r.error == None && r.status == Completed))
  {
    var run := RunSteps(sorted, w);
    SagaTheorems.AbortedIff(sorted, w);
    SagaTheorems.CompletedIsPrefixBeforeFirstFailure(sorted, w);
    forall k: nat
      ensures SagaTheorems.FirstFailure(sorted, w, k) <==> run.error.Some? && k == run.done
    {
      SagaTheorems.FirstFailureIsDone(sorted, w, k);
    }
    if run.done < |sorted| {
      assert SagaTheorems.FirstFailure(sorted, w, run.done);
    }
  }

  /** The caller gets that result, of whatever run there was, unless the call rejects. */
  lemma {:induction false} AnswerTells<W, R>(sorted: seq<SagaStep<W, R>>, p: PublishedRun<W, R>,
                                             thrown: Option<Reason>, chokes: bool)
    requires p.run.done <= |sorted|
    ensures var a := AnswerOf(sorted, p, thrown, chokes);
            && (a == None <==> p.rejected || thrown == Some(NoReason) || (thrown != None && chokes))
            && (a != None ==> a == Some(ResultOf(sorted, p.run, thrown)))
            && AreFirst(ResultOf(sorted, p.run, thrown).completedSteps, sorted, p.run.done)
            && ResultOf(sorted, p.run, thrown).failedStep ==
               if p.run.done < |sorted| then Some(sorted[p.run.done].name) else None
  {}

  /** What is stored: at first no steps and IN_PROGRESS, in the end the result's steps, its failed
      step if there is one, the time taken, and the status under its own name. */
  lemma {:induction false} StatesTell(sagaId: string, r: SagaResult, duration: int)
    ensures var s := InitialState(sagaId);
            s == map["status" := Text("IN_PROGRESS"), "context" := Context(sagaId), "completedSteps" := Names([])]
    ensures var s := FinalState(sagaId, r.status, r.completedSteps, r.failedStep, duration);
            && s.Keys == {"status", "context", "completedSteps", "failedStep", "duration"}
            && s["completedSteps"] == Names(r.completedSteps) && s["duration"] == At(duration)
            && s["context"] == Context(sagaId)
            && s["failedStep"] == (match r.failedStep case Some(name) => Text(name) case None => Undefined)
            && (r.status == Completed ==> s["status"] == Text("COMPLETED"))
            && (r.status == Compensated ==> s["status"] == Text("COMPENSATED"))
            && (r.status == Failed ==> s["status"] == Text("FAILED"))
  {}

  /** What `getStatus` answers after a run, in so many words: for one hour from the last write
      COMPENSATED after a failure of a named step, COMPLETED otherwise, and IN_PROGRESS when a reason
      was missing; after that nothing. */
  lemma {:induction false} StoredStatus<W(!new), R(!new)>(
    sorted: seq<SagaStep<W, R>>, w: W, pre: seq<Op>, mid: seq<Op>, post: seq<Op>, sagaId: string,
    startTime: int, endTime: int, now: int)
    requires Quiet(pre, sagaId) && Quiet(mid, sagaId) && Quiet(post, sagaId)
    requires Monotone(Written(sorted, RunSteps(sorted, w), pre, mid, post, sagaId, startTime, endTime), now)
    ensures var run := RunSteps(sorted, w);
            var stored := StatusAt(Run(Written(sorted, run, pre, mid, post, sagaId, startTime, endTime)), sagaId, now);
            stored ==
            if SagaTheorems.LacksReason(sorted, w) then
              if now - startTime <= 60 * 60 * 1000 then Some(Text("IN_PROGRESS")) else None
            else if now - endTime > 60 * 60 * 1000 then None
            else if exists k: nat :: SagaTheorems.FirstFailure(sorted, w, k) && sorted[k].name != ""
            then Some(Text("COMPENSATED")) else Some(Text("COMPLETED"))
  {
    var run := RunSteps(sorted, w);
    SagaTheorems.AbortedIff(sorted, w);
    if run.aborted {
      Join(pre + [Save(sagaId, InitialState(sagaId), startTime)], mid, post);
      StaysInProgress(pre, mid + post, sagaId, startTime, now);
    } else {
      StatusFollowsRun(pre, mid, post, sagaId, ResultOf(sorted, run, None), startTime, endTime, now);
      NamedFailure(sorted, w);
    }
  }

  lemma {:induction false} NamedFailure<W(!new), R(!new)>(sorted: seq<SagaStep<W, R>>, w: W)
    ensures (exists k: nat :: SagaTheorems.FirstFailure(sorted, w, k) && sorted[k].name != "") <==>
            ReportsFailure(sorted, RunSteps(sorted, w).done)
  {
    var run := RunSteps(sorted, w);
    forall k: nat
      ensures SagaTheorems.FirstFailure(sorted, w, k) <==> run.error.Some? && k == run.done
    {
      SagaTheorems.FirstFailureIsDone(sorted, w, k);
    }
    if run.done < |sorted| {
      assert SagaTheorems.FirstFailure(sorted, w, run.done);
    }
  }

  class Orchestrator<W, R> {
    /** Everything the steps' closures act on. */
    var world: W
    const eventPublisher: EventPublisher?
    const stateStore: StoreClient?
    /** Every event passed to `PublishEvent`, and what the publisher had seen before. */
    ghost var published: seq<SagaEvent>
    ghost const earlier: seq<SagaEvent>
    /** Which publishing attempts reject without a reason. */
    ghost const chokes: Chokes

    constructor (world: W, eventPublisher: EventPublisher?, stateStore: StoreClient?)
      ensures this.world == world && this.eventPublisher == eventPublisher && this.stateStore == stateStore
      ensures published == [] && Valid()
    {
      this.world, this.eventPublisher, this.stateStore := world, eventPublisher, stateStore;
      published, earlier := [], if eventPublisher == null then [] else eventPublisher.attempts;
      chokes := (k: nat, e: SagaEvent) => eventPublisher != null && eventPublisher.answers(k, e) == Some(NoReason);
    }

    /** The publisher, if there is one, was attempted with exactly the published events, in order,
        whatever it answered. */
    ghost predicate Valid()
      reads this, eventPublisher
    {
      && (eventPublisher != null ==> eventPublisher.attempts == earlier + published)
      && forall k, e :: chokes(k, e) <==> eventPublisher != null && eventPublisher.answers(k, e) == Some(NoReason)
    }

    ghost function StoreSet(): set<object> {
      if stateStore == null then {} else {stateStore.store}
    }

    ghost function Attempts(): nat
      reads this`published
    {
      |earlier| + |published|
    }

    /** An error of the publisher is logged; to log what has no message throws in turn. */
    method PublishEvent(event: SagaEvent) returns (escaped: bool)
      requires Valid()
      modifies eventPublisher, this`published
      ensures Valid() && published == old(published) + [event]
      ensures escaped == chokes(old(Attempts()), event)
    {
      escaped := false;
      if eventPublisher != null {
        var thrown := eventPublisher.Publish(event);
        escaped := thrown == Some(NoReason);
      }
      published := published + [event];
    }

    /** The body of the inner try block: None when the step completes. */
    method TryStep(step: SagaStep<W, R>, context: SagaContext<R>) returns (error: Option<Reason>)
      requires Valid()
      modifies this`world, eventPublisher, this`published, context`stepResults
      ensures Valid()
      ensures match step.execute(old(world), old(context.stepResults))
              case (w1, Threw(e)) =>
                && world == w1 && context.stepResults == old(context.stepResults)
                && published == old(published) && error == Some(e)
              case (w1, Done(r)) =>
                && context.stepResults == old(context.stepResults)[step.name := r]
                && var (w2, thrown) := if step.onStepComplete.Some?
                                       then step.onStepComplete.value(w1, context.stepResults, r) else (w1, None);
                   && world == w2
                   && published == old(published) + (if thrown.Some? then [] else [StepCompleted(step.name)])
                   && error == if thrown.Some? then thrown
                               else if chokes(old(Attempts()), StepCompleted(step.name)) then Some(CannotReadMessage)
                               else None
    {
      var (w, outcome) := step.execute(world, context.stepResults);
      world := w;
      match outcome {
        case Threw(e) =>
          error := Some(e);
        case Done(result) =>
          context.stepResults := context.stepResults[step.name := result];
          error := None;
          if step.onStepComplete.Some? {
            var (w', thrown) := step.onStepComplete.value(world, context.stepResults, result);
            world, error := w', thrown;
          }
          if error.None? {
            var escaped := PublishEvent(StepCompleted(step.name));
            error := if escaped then Some(CannotReadMessage) else None;
          }
      }
    }

    method ExecuteStep(step: SagaStep<W, R>, context: SagaContext<R>) returns (error: Option<Reason>)
      requires Valid()
      modifies this`world, eventPublisher, this`published, context`stepResults
      ensures Valid()
      ensures var s := ExecStepVia(chokes, old(Attempts()), step, old(world), old(context.stepResults));
              world == s.world && context.stepResults == s.results && error == s.error &&
              published == old(published) + s.events
    {
      var escaped := PublishEvent(StepStarted(step.name));
      if escaped {
        return Some(CannotReadMessage);
      }
      error := TryStep(step, context);
      if error.Some? && step.onStepFailed.Some? {
        var (w', thrown) := step.onStepFailed.value(world, context.stepResults, error.value);
        world := w';
        if thrown.Some? {
          error := thrown;
        }
      }
    }

    /** The body of the compensation loop: what throws an error, the undo or the publishing of its
        events, is passed over. */
    method CompensateStep(context: SagaContext<R>, step: SagaStep<W, R>) returns (escaped: bool)
      requires Valid()
      modifies this`world, eventPublisher, this`published
      ensures Valid()
      ensures var u := UndoStepVia(chokes, old(Attempts()), step, old(world), context.stepResults);
              world == u.world && published == old(published) + u.events && escaped == u.escaped
    {
      var skipped := PublishEvent(StepCompensating(step.name));
      if skipped {
        return false;
      }
      var (w, thrown) := step.compensate(world, context.stepResults, Lookup(context.stepResults, step.name));
      world := w;
      if thrown.None? {
        var _ := PublishEvent(StepCompensated(step.name));
      }
      escaped := thrown == Some(NoReason);
    }

    /** Runs the compensations in the order of its argument; the caller does the reversing. */
    method Compensate(context: SagaContext<R>, completedSteps: seq<SagaStep<W, R>>) returns (escaped: bool)
      requires Valid()
      modifies this`world, eventPublisher, this`published
      ensures Valid()
      ensures var u := CompensateVia(chokes, old(Attempts()), completedSteps, old(world), context.stepResults);
              world == u.world && published == old(published) + u.events && escaped == u.escaped
    {
      ghost var before, n := published, Attempts();
      ghost var u := UndoAllVia(chokes, n + 1, completedSteps, world, context.stepResults);
      escaped := PublishEvent(SagaCompensating);
      if !escaped {
        escaped := CompensateAll(context, completedSteps);
        Join(before, [SagaCompensating], u.events);
      }
    }

    /** The loop of `compensate`. */
    method CompensateAll(context: SagaContext<R>, completedSteps: seq<SagaStep<W, R>>) returns (escaped: bool)
      requires Valid()
      modifies this`world, eventPublisher, this`published
      ensures Valid()
      ensures var u := UndoAllVia(chokes, old(Attempts()), completedSteps, old(world), context.stepResults);
              world == u.world && published == old(published) + u.events && escaped == u.escaped
    {
      ghost var u := UndoAllVia(chokes, Attempts(), completedSteps, world, context.stepResults);
      ghost var whole := published + u.events;
      for i := 0 to |completedSteps|
        invariant Valid()
        invariant var rest := UndoAllVia(chokes, Attempts(), completedSteps[i..], world, context.stepResults);
                  rest.world == u.world && rest.escaped == u.escaped && published + rest.events == whole
      {
        ghost var before, n, rest := published, Attempts(), completedSteps[i..];
        ghost var step := UndoStepVia(chokes, n, rest[0], world, context.stepResults);
        assert rest[1..] == completedSteps[i + 1..];
        escaped := CompensateStep(context, completedSteps[i]);
        if escaped {
          return;
        }
        Join(before, step.events,
             UndoAllVia(chokes, n + |step.events|, rest[1..], step.world, context.stepResults).events);
      }
      escaped := false;
    }

    /** The catch block of the loop: the completed steps are compensated last first, unless what was
        caught has no message to log or an event before the compensation cannot be published. */
    method FailStepAndCompensate(context: SagaContext<R>, step: SagaStep<W, R>, error: Reason,
                                 completedSteps: seq<SagaStep<W, R>>, ghost sortedSteps: seq<SagaStep<W, R>>,
                                 ghost f: ForwardRun<W, R>, ghost u: UndoRun<W>)
      returns (escaped: bool)
      requires Valid() && StopsIn(sortedSteps, f) && f.error == Some(error)
      requires step == sortedSteps[f.done] && completedSteps == sortedSteps[..f.done]
      requires world == f.world && context.stepResults == f.results
      requires u == RecoverVia(chokes, Attempts(), sortedSteps, f)
      modifies this`world, eventPublisher, this`published
      ensures Valid()
      ensures world == u.world && published == old(published) + u.events && escaped == u.escaped
    {
      if error.NoReason? {
        return true;
      }
      ghost var before, n := published, Attempts();
      escaped := PublishEvent(StepFailed(step.name));
      if !escaped {
        escaped := Compensate(context, Reverse(completedSteps));
        Join(before, [StepFailed(step.name)],
             CompensateVia(chokes, n + 1, Reverse(completedSteps), f.world, f.results).events);
      }
    }

    /** What is left to do from step `i` on completes `f`, before which `before` was published. */
    ghost predicate Ahead(context: SagaContext<R>, sortedSteps: seq<SagaStep<W, R>>, i: nat,
                          before: seq<SagaEvent>, f: ForwardRun<W, R>)
      reads this, context
    {
      i <= |sortedSteps| &&
      var rest := RunFromVia(chokes, Attempts(), sortedSteps, i, world, context.stepResults);
      f == rest.(events := f.events) && published + rest.events == before + f.events
    }

    /** The try block of the loop's body. */
    method AdvanceOne(context: SagaContext<R>, sortedSteps: seq<SagaStep<W, R>>, i: nat,
                      ghost before: seq<SagaEvent>, ghost f: ForwardRun<W, R>)
      returns (error: Option<Reason>)
      requires Valid() && i < |sortedSteps| && Ahead(context, sortedSteps, i, before, f)
      modifies this`world, eventPublisher, this`published, context`stepResults
      ensures Valid()
      ensures error.None? ==> Ahead(context, sortedSteps, i + 1, before, f)
      ensures error.Some? ==>
                f == ForwardRun(world, context.stepResults, f.events, i, error) && published == before + f.events
    {
      ghost var was, n := published, Attempts();
      ghost var s := ExecStepVia(chokes, n, sortedSteps[i], world, context.stepResults);
      error := ExecuteStep(sortedSteps[i], context);
      if error.None? {
        Join(was, s.events, RunFromVia(chokes, n + |s.events|, sortedSteps, i + 1, world, context.stepResults).events);
      }
    }

    /** The loop over the sorted steps up to the first that fails. */
    method AdvanceAll(context: SagaContext<R>, sortedSteps: seq<SagaStep<W, R>>, ghost f: ForwardRun<W, R>)
      returns (completedSteps: seq<SagaStep<W, R>>, failedStep: Option<string>, lastError: Option<Reason>)
      requires Valid() && f == RunFromVia(chokes, Attempts(), sortedSteps, 0, world, context.stepResults)
      modifies this`world, eventPublisher, this`published, context`stepResults
      ensures Valid() && f.done <= |sortedSteps|
      ensures world == f.world && context.stepResults == f.results && published == old(published) + f.events
      ensures completedSteps == sortedSteps[..f.done] && lastError == f.error
      ensures failedStep == if f.done < |sortedSteps| then Some(sortedSteps[f.done].name) else None
    {
      completedSteps := [];
      ghost var before := published;
      for i := 0 to |sortedSteps|
        invariant Valid() && completedSteps == sortedSteps[..i]
        invariant Ahead(context, sortedSteps, i, before, f)
      {
        var step := sortedSteps[i];
        var error := AdvanceOne(context, sortedSteps, i, before, f);
        if error.Some? {
          return completedSteps, Some(step.name), error;
        }
        assert sortedSteps[..i + 1] == sortedSteps[..i] + [step];
        completedSteps := completedSteps + [step];
      }
      assert published + [] == published;
      return completedSteps, None, None;
    }

    /** The whole loop; its catch block, which ends it, is run on the first failure. */
    method RunForward(context: SagaContext<R>, sortedSteps: seq<SagaStep<W, R>>, ghost loop: SagaRun<W, R>)
      returns (completedSteps: seq<SagaStep<W, R>>, failedStep: Option<string>, lastError: Option<Reason>,
               escaped: bool)
      requires Valid() && context.stepResults == map[] && loop == LoopVia(chokes, Attempts(), sortedSteps, world)
      modifies this`world, eventPublisher, this`published, context`stepResults
      ensures Valid() && loop.done <= |sortedSteps|
      ensures world == loop.world && context.stepResults == loop.results
      ensures published == old(published) + loop.events
      ensures completedSteps == sortedSteps[..loop.done]
      ensures failedStep == if loop.done < |sortedSteps| then Some(sortedSteps[loop.done].name) else None
      ensures lastError == loop.error && escaped == loop.aborted
    {
      ghost var before, n := published, Attempts();
      ghost var f := RunFromVia(chokes, n, sortedSteps, 0, world, map[]);
      ghost var u := RecoverVia(chokes, n + |f.events|, sortedSteps, f);
      assert loop == SagaRun(u.world, f.results, f.events + u.events, f.done, f.error, u.escaped);
      completedSteps, failedStep, lastError := AdvanceAll(context, sortedSteps, f);
      assert Attempts() == n + |f.events|;
      escaped := false;
      if lastError.Some? {
        escaped := FailStepAndCompensate(context, sortedSteps[|completedSteps|], lastError.value, completedSteps,
                                         sortedSteps, f, u);
      }
      Join(before, f.events, u.events);
      assert before + f.events + [] == before + f.events;
    }

    /** Decides the status, stamps the context and publishes the last event. */
    method FinalStatus(context: SagaContext<R>, failedStep: Option<string>, now: int)
      returns (status: SagaStatus, escaped: bool)
      requires Valid()
      modifies eventPublisher, this`published, context`completedAt, context`failedAt
      ensures Valid()
      ensures status == if failedStep.Some? && failedStep.value != "" then Compensated else Completed
      ensures var last := if status == Compensated then SagaCompensated else SagaCompleted;
              published == old(published) + [last] && escaped == chokes(old(Attempts()), last)
      ensures status == Compensated ==> context.failedAt == Some(now) && context.completedAt == old(context.completedAt)
      ensures status == Completed ==> context.completedAt == Some(now) && context.failedAt == old(context.failedAt)
    {
      if failedStep.Some? && failedStep.value != "" {
        status := Compensated;
        context.failedAt := Some(now);
        escaped := PublishEvent(SagaCompensated);
      } else {
        status := Completed;
        context.completedAt := Some(now);
        escaped := PublishEvent(SagaCompleted);
      }
    }

    /** The outermost catch block, once the message has been read. */
    method Abort(r: SagaResult) returns (result: Option<SagaResult>)
      requires Valid()
      modifies eventPublisher, this`published
      ensures Valid() && published == old(published) + [SagaFailed]
      ensures result == if chokes(old(Attempts()), SagaFailed) then None else Some(r.(status := Failed))
    {
      var escaped := PublishEvent(SagaFailed);
      result := if escaped then None else Some(r.(status := Failed));
    }

    /** What `update` throws; a run that was aborted does not get as far. */
    ghost function UpdateThrows(aborted: bool): Option<Reason> {
      if stateStore == null || aborted then None else stateStore.updateError
    }

    /** Updates the stored state; if that throws an error, the whole run is reported as failed, and
        if it throws something without a message, the call rejects. */
    method RecordOutcome(sagaId: string, r: SagaResult, startTime: int, endTime: int)
      returns (result: Option<SagaResult>)
      requires Valid()
      modifies eventPublisher, this`published, StoreSet()
      ensures Valid()
      ensures var e := UpdateThrows(false);
              published == old(published) + (if e.Some? && e.value.Because? then [SagaFailed] else []) &&
              result == match e
                        case None => Some(r)
                        case Some(NoReason) => None
                        case Some(Because(_)) => if chokes(old(Attempts()), SagaFailed) then None
                                                 else Some(r.(status := Failed, error := e))
      ensures stateStore != null ==>
                stateStore.store.store ==
                if stateStore.updateError.Some? then old(stateStore.store.store)
                else Updated(old(stateStore.store.store), sagaId,
                             FinalState(sagaId, r.status, r.completedSteps, r.failedStep, endTime - startTime), endTime)
    {
      result := Some(r);
      if stateStore != null {
        var e := stateStore.Update(sagaId, FinalState(sagaId, r.status, r.completedSteps, r.failedStep,
                                                      endTime - startTime), endTime);
        if e == Some(NoReason) {
          return None;
        }
        if e.Some? {
          result := Abort(r.(error := e));
        }
      }
    }

    /** The store after a run whose state was saved as `saved`. */
    ghost function Recorded(saved: Table, sagaId: string, sorted: seq<SagaStep<W, R>>, run: SagaRun<W, R>,
                            startTime: int, endTime: int): Table
      requires stateStore != null && run.done <= |sorted|
    {
      if run.aborted || stateStore.updateError.Some? then saved
      else
        var r := ResultOf(sorted, run, None);
        Updated(saved, sagaId, FinalState(sagaId, r.status, r.completedSteps, r.failedStep, endTime - startTime),
                endTime)
    }

    /** A store that does not throw is left as the history of the run's own writes leaves it. */
    lemma {:induction false} RecordedIsWritten(pre: seq<Op>, sagaId: string, sorted: seq<SagaStep<W, R>>,
                                               run: SagaRun<W, R>, startTime: int, endTime: int)
      requires stateStore != null && stateStore.updateError.None? && run.done <= |sorted|
      ensures Recorded(Saved(Run(pre), sagaId, InitialState(sagaId), startTime), sagaId, sorted, run,
                       startTime, endTime) ==
              Run(Written(sorted, run, pre, [], [], sagaId, startTime, endTime))
    {
      var save := Save(sagaId, InitialState(sagaId), startTime);
      var h := pre + [save];
      assert h[..|pre|] == pre && h + [] == h;
      assert Run(h) == Saved(Run(pre), sagaId, InitialState(sagaId), startTime);
      if !run.aborted {
        var r := ResultOf(sorted, run, None);
        var update := Update(sagaId, FinalState(sagaId, r.status, r.completedSteps, r.failedStep, endTime - startTime),
                             endTime);
        var g := h + [update];
        assert g[..|h|] == h && h + [] + [update] + [] == g;
        assert Run(g) == Apply(Run(h), update);
      }
    }

    /** After the loop: the final status and the store's update. */
    method Conclude(sagaId: string, context: SagaContext<R>, completedSteps: seq<string>, failedStep: Option<string>,
                    lastError: Option<Reason>, startTime: int, endTime: int)
      returns (result: Option<SagaResult>)
      requires Valid() && context.failedAt.None? && context.completedAt.None?
      modifies eventPublisher, this`published, StoreSet(), context`completedAt, context`failedAt
      ensures Valid()
      ensures var failed := failedStep.Some? && failedStep.value != "";
              var r := SagaResult(if failed then Compensated else Completed, completedSteps, failedStep, lastError);
              var last := if failed then SagaCompensated else SagaCompleted;
              var n := old(Attempts());
              var choked := chokes(n, last);
              var thrown := UpdateThrows(choked);
              && result == (if choked then
                              if chokes(n + 1, SagaFailed) then None
                              else Some(r.(status := Failed, error := Some(CannotReadMessage)))
                            else
                              match thrown
                              case None => Some(r)
                              case Some(NoReason) => None
                              case Some(Because(_)) => if chokes(n + 1, SagaFailed) then None
                                                       else Some(r.(status := Failed, error := thrown)))
              && published == old(published) + [last] +
                              (if choked || (thrown.Some? && thrown.value.Because?) then [SagaFailed] else [])
              && context.failedAt.Some? == failed && context.completedAt.Some? == !failed
              && (stateStore != null ==>
                    stateStore.store.store ==
                    if choked || thrown.Some? then old(stateStore.store.store)
                    else Updated(old(stateStore.store.store), sagaId,
                                 FinalState(sagaId, r.status, completedSteps, failedStep, endTime - startTime),
                                 endTime))
    {
      var status, escaped := FinalStatus(context, failedStep, endTime);
      var r := SagaResult(status, completedSteps, failedStep, lastError);
      if escaped {
        result := Abort(r.(error := Some(CannotReadMessage)));
      } else {
        result := RecordOutcome(sagaId, r, startTime, endTime);
      }
    }

    /** What follows the loop `loop`, before which `before` was published. */
    method Settle(sagaId: string, context: SagaContext<R>, completedSteps: seq<string>, failedStep: Option<string>,
                  lastError: Option<Reason>, escaped: bool, startTime: int, endTime: int,
                  ghost before: seq<SagaEvent>, ghost sortedSteps: seq<SagaStep<W, R>>, ghost loop: SagaRun<W, R>,
                  ghost p: PublishedRun<W, R>)
      returns (result: Option<SagaResult>)
      requires Valid() && context.failedAt.None? && context.completedAt.None?
      requires world == loop.world && context.stepResults == loop.results
      requires loop.done <= |sortedSteps| && completedSteps == NamesOf(sortedSteps[..loop.done])
      requires failedStep == if loop.done < |sortedSteps| then Some(sortedSteps[loop.done].name) else None
      requires lastError == loop.error && escaped == loop.aborted && published == before + loop.events
      requires p == FinishVia(chokes, Attempts(), sortedSteps, loop)
      modifies eventPublisher, this`published, StoreSet(), context`completedAt, context`failedAt
      ensures Valid() && p.run.done == loop.done
      ensures Answered(context, sortedSteps, p, |earlier| + |before|, result)
      ensures published == before + p.run.events + UpdateFailed(p.run.aborted)
      ensures stateStore != null ==>
                stateStore.store.store ==
                Recorded(old(stateStore.store.store), sagaId, sortedSteps, p.run, startTime, endTime)
    {
      if escaped {
        result := Abort(SagaResult(Failed, completedSteps, failedStep, Some(CannotReadMessage)));
        Join(before, loop.events, [SagaFailed]);
      } else {
        ghost var last := LastEvent(sortedSteps, loop.done, false);
        result := Conclude(sagaId, context, completedSteps, failedStep, lastError, startTime, endTime);
        Join(before, loop.events, [last]);
        Join(before, loop.events, [last, SagaFailed]);
        Join(before + loop.events, [last], [SagaFailed]);
      }
    }

    /** The state, the results, the answer and the stamps are those of `p`, whose events were published
        from attempt `n` on. */
    ghost predicate Answered(context: SagaContext<R>, sortedSteps: seq<SagaStep<W, R>>, p: PublishedRun<W, R>,
                             n: nat, result: Option<SagaResult>)
      requires p.run.done <= |sortedSteps|
      reads this, context
    {
      && world == p.run.world && context.stepResults == p.run.results
      && result == AnswerOf(sortedSteps, p, UpdateThrows(p.run.aborted), chokes(n + |p.run.events|, SagaFailed))
      && context.failedAt.Some? == (p.concluded && ReportsFailure(sortedSteps, p.run.done))
      && context.completedAt.Some? == (p.concluded && !ReportsFailure(sortedSteps, p.run.done))
    }

    /** The event published when the store's update throws an error. */
    ghost function UpdateFailed(aborted: bool): seq<SagaEvent> {
      if UpdateThrows(aborted).Some? && UpdateThrows(aborted).value.Because? then [SagaFailed] else []
    }

    /** The try block: the loop, the final status and the store's update, or the outermost catch. */
    method TryRun(sagaId: string, context: SagaContext<R>, sortedSteps: seq<SagaStep<W, R>>,
                  startTime: int, endTime: int, ghost loop: SagaRun<W, R>, ghost p: PublishedRun<W, R>)
      returns (result: Option<SagaResult>)
      requires Valid() && context.stepResults == map[] && context.failedAt.None? && context.completedAt.None?
      requires loop == LoopVia(chokes, Attempts(), sortedSteps, world)
      requires p == FinishVia(chokes, Attempts() + |loop.events|, sortedSteps, loop)
      modifies this`world, eventPublisher, this`published, StoreSet(), context
      ensures Valid() && p.run.done <= |sortedSteps|
      ensures Answered(context, sortedSteps, p, old(Attempts()), result)
      ensures published == old(published) + p.run.events + UpdateFailed(p.run.aborted)
      ensures stateStore != null ==>
                stateStore.store.store ==
                Recorded(old(stateStore.store.store), sagaId, sortedSteps, p.run, startTime, endTime)
    {
      ghost var before, n := published, Attempts() + |loop.events|;
      var completedSteps, failedStep, lastError, escaped := RunForward(context, sortedSteps, loop);
      assert Attempts() == n;
      result := Settle(sagaId, context, NamesOf(completedSteps), failedStep, lastError, escaped, startTime, endTime,
                       before, sortedSteps, loop, p);
    }

    predicate SaveThrows() {
      stateStore != null && stateStore.saveError.Some?
    }

    /** The saved state and the try block; nothing runs when `save` throws. */
    method SaveAndRun(sagaId: string, context: SagaContext<R>, sortedSteps: seq<SagaStep<W, R>>,
                      startTime: int, endTime: int, ghost p: PublishedRun<W, R>)
      returns (result: Option<SagaResult>)
      requires Valid() && context.stepResults == map[] && context.failedAt.None? && context.completedAt.None?
      requires p == StartedVia(chokes, Attempts(), sortedSteps, world)
      modifies this`world, eventPublisher, this`published, StoreSet(), context
      ensures Valid() && p.run.done <= |sortedSteps|
      ensures SaveThrows() ==>
                result.None? && world == old(world) && published == old(published) &&
                stateStore.store.store == old(stateStore.store.store)
      ensures !SaveThrows() ==>
                && Answered(context, sortedSteps, p, old(Attempts()), result)
                && published == old(published) + p.run.events + UpdateFailed(p.run.aborted)
                && (stateStore != null ==>
                      stateStore.store.store ==
                      Recorded(Saved(old(stateStore.store.store), sagaId, InitialState(sagaId), startTime),
                               sagaId, sortedSteps, p.run, startTime, endTime))
    {
      if stateStore != null {
        var e := stateStore.Save(sagaId, InitialState(sagaId), startTime);
        if e.Some? {
          return None;
        }
      }
      ghost var loop := LoopVia(chokes, Attempts(), sortedSteps, world);
      result := TryRun(sagaId, context, sortedSteps, startTime, endTime, loop, p);
    }

    /** The result is None when the call rejects: SAGA_STARTED could not be published or `save` threw,
        and nothing has run; or the outermost catch could not do its work.  `p` is the run of the
        sorted steps once SAGA_STARTED is published; with that event in front it is `RunStepsVia`. */
    method Execute(sagaId: string, steps: seq<SagaStep<W, R>>, startTime: int, endTime: int)
      returns (result: Option<SagaResult>, context: SagaContext<R>, ghost p: PublishedRun<W, R>)
      requires Valid()
      modifies this`world, eventPublisher, this`published, StoreSet()
      ensures Valid() && fresh(context) && p.run.done <= |SortSteps(steps)|
      ensures p == StartedVia(chokes, old(Attempts()) + 1, SortSteps(steps), old(world))
      ensures chokes(old(Attempts()), SagaStarted) || SaveThrows() ==>
                && result.None? && world == old(world) && published == old(published) + [SagaStarted]
                && (stateStore != null ==> stateStore.store.store == old(stateStore.store.store))
      ensures !chokes(old(Attempts()), SagaStarted) && !SaveThrows() ==>
                && Answered(context, SortSteps(steps), p, old(Attempts()) + 1, result)
                && published == old(published) + [SagaStarted] + p.run.events + UpdateFailed(p.run.aborted)
                && (stateStore != null ==>
                      stateStore.store.store ==
                      Recorded(Saved(old(stateStore.store.store), sagaId, InitialState(sagaId), startTime),
                               sagaId, SortSteps(steps), p.run, startTime, endTime))
    {
      var sortedSteps := SortSteps(steps);
      ghost var n, w := Attempts() + 1, world;
      p := StartedVia(chokes, n, sortedSteps, w);
      context := new SagaContext(sagaId);
      var escaped := PublishEvent(SagaStarted);
      if escaped {
        return None, context, p;
      }
      assert Attempts() == n && world == w;
      result := SaveAndRun(sagaId, context, sortedSteps, startTime, endTime, p);
    }

    method GetStatus(sagaId: string, now: int) returns (status: Option<Field>)
      modifies StoreSet()
      ensures stateStore == null ==> status.None?
      ensures stateStore != null ==> status == StatusAt(old(stateStore.store.store), sagaId, now)
      ensures stateStore != null ==> stateStore.store.store == AfterGet(old(stateStore.store.store), sagaId, now)
    {
      if stateStore == null {
        return None;
      }
      var state := stateStore.store.Get(sagaId, now);
      return if state.Some? then Lookup(state.value, "status") else None;
    }
  }
}
