/**
 The run as its publisher can disturb it.  An error that `publish` throws is logged and forgotten;
 but a rejection without a reason makes the logging throw in its turn, wherever the event was being
 published.  `SagaSpec` is the run nothing disturbs; here is when the two are the same.
 */
module SagaPublishing {
  import opened Wrappers
  import opened SagaSpec
  import opened SagaTheorems

  /** Whether publishing attempt number `n`, of that event, rejects without a reason. */
  type Chokes = (nat, SagaEvent) -> bool

  /** The start event is published before the try block, the completion event within it. */
  function ExecStepVia<W, R>(ch: Chokes, n: nat, step: SagaStep<W, R>, w: W, results: map<string, R>): StepRun<W, R> {
    if ch(n, StepStarted(step.name)) then
      StepRun(w, results, [StepStarted(step.name)], Some(CannotReadMessage))
    else
      var s := ExecStep(step, w, results);
      if s.error.None? && ch(n + 1, StepCompleted(step.name))
      then FailStep(step, s.world, s.results, CannotReadMessage).(events := s.events)
      else s
  }

  function RunFromVia<W, R>(ch: Chokes, n: nat, steps: seq<SagaStep<W, R>>, i: nat, w: W, results: map<string, R>)
    : (run: ForwardRun<W, R>)
    requires i <= |steps|
    ensures i <= run.done && StopsIn(steps, run)
    decreases |steps| - i
  {
    if i == |steps| then ForwardRun(w, results, [], i, None)
    else
      var s := ExecStepVia(ch, n, steps[i], w, results);
      if s.error.Some? then ForwardRun(s.world, s.results, s.events, i, s.error)
      else
        var rest := RunFromVia(ch, n + |s.events|, steps, i + 1, s.world, s.results);
        rest.(events := s.events + rest.events)
  }

  /** The undo is skipped when its first event cannot be published; the second does not matter. */
  function UndoStepVia<W, R>(ch: Chokes, n: nat, step: SagaStep<W, R>, w: W, results: map<string, R>): UndoRun<W> {
    if ch(n, StepCompensating(step.name)) then UndoRun(w, [StepCompensating(step.name)], false)
    else UndoStep(step, w, results)
  }

  function UndoAllVia<W, R>(ch: Chokes, n: nat, steps: seq<SagaStep<W, R>>, w: W, results: map<string, R>): UndoRun<W>
    decreases |steps|
  {
    if steps == [] then UndoRun(w, [], false)
    else
      var u := UndoStepVia(ch, n, steps[0], w, results);
      if u.escaped then u
      else
        var rest := UndoAllVia(ch, n + |u.events|, steps[1..], u.world, results);
        rest.(events := u.events + rest.events)
  }

  /** `compensate`: its own event is published outside any try block. */
  function CompensateVia<W, R>(ch: Chokes, n: nat, steps: seq<SagaStep<W, R>>, w: W, results: map<string, R>)
    : UndoRun<W>
  {
    if ch(n, SagaCompensating) then UndoRun(w, [SagaCompensating], true)
    else
      var u := UndoAllVia(ch, n + 1, steps, w, results);
      u.(events := [SagaCompensating] + u.events)
  }

  /** The catch block of the loop. */
  function RecoverVia<W, R>(ch: Chokes, n: nat, steps: seq<SagaStep<W, R>>, f: ForwardRun<W, R>): UndoRun<W>
    requires StopsIn(steps, f)
  {
    match f.error
    case None => UndoRun(f.world, [], false)
    case Some(NoReason) => UndoRun(f.world, [], true)
    case Some(Because(_)) =>
      var failed := StepFailed(steps[f.done].name);
      if ch(n, failed) then UndoRun(f.world, [failed], true)
      else
        var u := CompensateVia(ch, n + 1, Reverse(steps[..f.done]), f.world, f.results);
        u.(events := [failed] + u.events)
  }

  /** The loop with its catch block, from the first step on. */
  function LoopVia<W, R>(ch: Chokes, n: nat, steps: seq<SagaStep<W, R>>, w: W): (run: SagaRun<W, R>)
    ensures run.done <= |steps|
  {
    var f := RunFromVia(ch, n, steps, 0, w, map[]);
    var u := RecoverVia(ch, n + |f.events|, steps, f);
    SagaRun(u.world, f.results, f.events + u.events, f.done, f.error, u.escaped)
  }

  /** `rejected` when the call itself rejects, because the first event or SAGA_FAILED could not be
      published; `concluded` when the final status was decided and stamped. */
  datatype PublishedRun<W, R> = PublishedRun(run: SagaRun<W, R>, rejected: bool, concluded: bool)

  /** The run as it is when the publisher does no harm. */
  function Undisturbed<W, R>(run: SagaRun<W, R>): PublishedRun<W, R> {
    PublishedRun(run, false, !run.aborted)
  }

  /** The final event, published within the outermost try block, and SAGA_FAILED, published in its catch. */
  function FinishVia<W, R>(ch: Chokes, n: nat, steps: seq<SagaStep<W, R>>, loop: SagaRun<W, R>): PublishedRun<W, R> {
    var last := if ReportsFailure(steps, loop.done) then SagaCompensated else SagaCompleted;
    if loop.aborted then PublishedRun(loop.(events := loop.events + [SagaFailed]), ch(n, SagaFailed), false)
    else if ch(n, last) then
      PublishedRun(loop.(events := loop.events + [last, SagaFailed], aborted := true), ch(n + 1, SagaFailed), true)
    else PublishedRun(loop.(events := loop.events + [last]), false, true)
  }

  /** The run once SAGA_STARTED is published. */
  function StartedVia<W, R>(ch: Chokes, n: nat, steps: seq<SagaStep<W, R>>, w: W): (p: PublishedRun<W, R>)
    ensures p.run.done <= |steps|
  {
    var loop := LoopVia(ch, n, steps, w);
    FinishVia(ch, n + |loop.events|, steps, loop)
  }

  function RunStepsVia<W, R>(ch: Chokes, n: nat, steps: seq<SagaStep<W, R>>, w: W): (p: PublishedRun<W, R>)
    ensures p.run.done <= |steps|
  {
    if ch(n, SagaStarted) then PublishedRun(SagaRun(w, map[], [SagaStarted], 0, None, true), true, false)
    else
      var p: PublishedRun<W, R> := StartedVia(ch, n + 1, steps, w);
      p.(run := p.run.(events := [SagaStarted] + p.run.events))
  }

  // ----- A publisher that does no harm -----

  /** Of these events, published from attempt `n` on, none but a STEP_COMPENSATED is choked on. */
  ghost predicate Harmless(ch: Chokes, n: nat, events: seq<SagaEvent>) {
    forall k :: 0 <= k < |events| && ch(n + k, events[k]) ==> events[k].StepCompensated?
  }

  lemma {:induction false} HarmlessJoin(ch: Chokes, n: nat, a: seq<SagaEvent>, b: seq<SagaEvent>)
    ensures Harmless(ch, n, a + b) <==> Harmless(ch, n, a) && Harmless(ch, n + |a|, b)
  {
    if Harmless(ch, n, a + b) {
      forall k | 0 <= k < |a| && ch(n + k, a[k])
        ensures a[k].StepCompensated?
      {
        assert (a + b)[k] == a[k];
      }
      forall k | 0 <= k < |b| && ch(n + |a| + k, b[k])
        ensures b[k].StepCompensated?
      {
        assert (a + b)[|a| + k] == b[k] && n + (|a| + k) == n + |a| + k;
      }
    }
    if Harmless(ch, n, a) && Harmless(ch, n + |a|, b) {
      forall k | 0 <= k < |a + b| && ch(n + k, (a + b)[k])
        ensures (a + b)[k].StepCompensated?
      {
        if k >= |a| {
          assert (a + b)[k] == b[k - |a|] && n + |a| + (k - |a|) == n + k;
        }
      }
    }
  }

  lemma {:induction false} HarmlessOne(ch: Chokes, n: nat, e: SagaEvent)
    ensures Harmless(ch, n, [e]) <==> (ch(n, e) ==> e.StepCompensated?)
  {
    if Harmless(ch, n, [e]) && ch(n, e) {
      assert ch(n + 0, [e][0]);
    }
  }

  lemma {:induction false} HarmlessHead(ch: Chokes, n: nat, e: SagaEvent, rest: seq<SagaEvent>)
    ensures Harmless(ch, n, [e] + rest) <==> (ch(n, e) ==> e.StepCompensated?) && Harmless(ch, n + 1, rest)
  {
    HarmlessJoin(ch, n, [e], rest);
    HarmlessOne(ch, n, e);
  }

  lemma {:induction false} HarmlessStep<W, R>(ch: Chokes, n: nat, step: SagaStep<W, R>, w: W, results: map<string, R>)
    ensures var s := ExecStep(step, w, results);
            Harmless(ch, n, s.events) <==>
            !ch(n, StepStarted(step.name)) && (s.error.None? ==> !ch(n + 1, StepCompleted(step.name)))
  {
    var s := ExecStep(step, w, results);
    if s.error.None? {
      assert s.events == [StepStarted(step.name)] + [StepCompleted(step.name)];
      HarmlessHead(ch, n, StepStarted(step.name), [StepCompleted(step.name)]);
      HarmlessOne(ch, n + 1, StepCompleted(step.name));
    } else {
      assert s.events == [StepStarted(step.name)];
      HarmlessOne(ch, n, StepStarted(step.name));
    }
  }

  lemma {:induction false} ForwardSame<W, R>(ch: Chokes, n: nat, steps: seq<SagaStep<W, R>>, i: nat, w: W,
                                             results: map<string, R>)
    requires i <= |steps| && Harmless(ch, n, RunFrom(steps, i, w, results).events)
    ensures RunFromVia(ch, n, steps, i, w, results) == RunFrom(steps, i, w, results)
    decreases |steps| - i
  {
    if i < |steps| {
      var s := ExecStep(steps[i], w, results);
      if s.error.None? {
        HarmlessJoin(ch, n, s.events, RunFrom(steps, i + 1, s.world, s.results).events);
        HarmlessStep(ch, n, steps[i], w, results);
        ForwardSame(ch, n + |s.events|, steps, i + 1, s.world, s.results);
      } else {
        HarmlessStep(ch, n, steps[i], w, results);
      }
    }
  }

  lemma {:induction false} HarmlessUndo<W, R>(ch: Chokes, n: nat, step: SagaStep<W, R>, w: W, results: map<string, R>)
    ensures Harmless(ch, n, UndoStep(step, w, results).events) <==> !ch(n, StepCompensating(step.name))
  {
    var u := UndoStep(step, w, results);
    HarmlessHead(ch, n, StepCompensating(step.name), u.events[1..]);
    assert u.events == [StepCompensating(step.name)] + u.events[1..];
  }

  lemma {:induction false} UndoSame<W, R>(ch: Chokes, n: nat, steps: seq<SagaStep<W, R>>, w: W, results: map<string, R>)
    requires Harmless(ch, n, UndoAll(steps, w, results).events)
    ensures UndoAllVia(ch, n, steps, w, results) == UndoAll(steps, w, results)
    decreases |steps|
  {
    if steps != [] {
      var u := UndoStep(steps[0], w, results);
      HarmlessUndo(ch, n, steps[0], w, results);
      if !u.escaped {
        HarmlessJoin(ch, n, u.events, UndoAll(steps[1..], u.world, results).events);
        UndoSame(ch, n + |u.events|, steps[1..], u.world, results);
      }
    }
  }

  lemma {:induction false} HarmlessRecover<W, R>(ch: Chokes, n: nat, steps: seq<SagaStep<W, R>>, f: ForwardRun<W, R>)
    requires StopsIn(steps, f) && f.error.Some? && f.error.value.Because?
    ensures var undone := UndoAll(Reverse(steps[..f.done]), f.world, f.results);
            Harmless(ch, n, Recover(steps, f).events) <==>
            !ch(n, StepFailed(steps[f.done].name)) && !ch(n + 1, SagaCompensating) && Harmless(ch, n + 2, undone.events)
  {
    var undone := UndoAll(Reverse(steps[..f.done]), f.world, f.results);
    var failed := StepFailed(steps[f.done].name);
    assert Recover(steps, f).events == [failed] + ([SagaCompensating] + undone.events);
    HarmlessHead(ch, n, failed, [SagaCompensating] + undone.events);
    HarmlessHead(ch, n + 1, SagaCompensating, undone.events);
  }

  lemma {:induction false} RecoverSame<W, R>(ch: Chokes, n: nat, steps: seq<SagaStep<W, R>>, f: ForwardRun<W, R>)
    requires StopsIn(steps, f) && Harmless(ch, n, Recover(steps, f).events)
    ensures RecoverVia(ch, n, steps, f) == Recover(steps, f)
  {
    if f.error.Some? && f.error.value.Because? {
      HarmlessRecover(ch, n, steps, f);
      UndoSame(ch, n + 2, Reverse(steps[..f.done]), f.world, f.results);
      var undone := UndoAll(Reverse(steps[..f.done]), f.world, f.results);
      var failed := StepFailed(steps[f.done].name);
      assert [failed] + ([SagaCompensating] + undone.events) == [failed, SagaCompensating] + undone.events;
    }
  }

  lemma {:induction false} HarmlessWhole(ch: Chokes, n: nat, a: seq<SagaEvent>, b: seq<SagaEvent>, last: SagaEvent)
    requires !last.StepCompensated?
    ensures Harmless(ch, n, [SagaStarted] + (a + b + [last])) <==>
            && !ch(n, SagaStarted) && Harmless(ch, n + 1, a) && Harmless(ch, n + 1 + |a|, b)
            && !ch(n + 1 + |a + b|, last)
  {
    HarmlessHead(ch, n, SagaStarted, a + b + [last]);
    HarmlessJoin(ch, n + 1, a + b, [last]);
    HarmlessJoin(ch, n + 1, a, b);
    HarmlessOne(ch, n + 1 + |a + b|, last);
  }

  lemma {:induction false} HarmlessRun<W, R>(ch: Chokes, n: nat, steps: seq<SagaStep<W, R>>, w: W)
    returns (f: ForwardRun<W, R>, u: UndoRun<W>)
    ensures f == RunFrom(steps, 0, w, map[]) && u == Recover(steps, f)
    ensures RunSteps(steps, w) ==
            SagaRun(u.world, f.results, [SagaStarted] + (f.events + u.events + [LastEvent(steps, f.done, u.escaped)]),
                    f.done, f.error, u.escaped)
    ensures Harmless(ch, n, RunSteps(steps, w).events) <==>
            && !ch(n, SagaStarted) && Harmless(ch, n + 1, f.events) && Harmless(ch, n + 1 + |f.events|, u.events)
            && !ch(n + 1 + |f.events + u.events|, LastEvent(steps, f.done, u.escaped))
  {
    f := RunFrom(steps, 0, w, map[]);
    u := Recover(steps, f);
    HarmlessWhole(ch, n, f.events, u.events, LastEvent(steps, f.done, u.escaped));
  }

  /** A publisher changes nothing in a run as long as it rejects without a reason on none of the
      run's events but STEP_COMPENSATED, whatever errors it throws. */
  lemma {:induction false} HarmlessPublisher<W, R>(ch: Chokes, n: nat, steps: seq<SagaStep<W, R>>, w: W)
    requires Harmless(ch, n, RunSteps(steps, w).events)
    ensures RunStepsVia(ch, n, steps, w) == Undisturbed(RunSteps(steps, w))
  {
    var f, u := HarmlessRun(ch, n, steps, w);
    LoopSame(ch, n + 1, steps, w, f, u);
    var loop := SagaRun(u.world, f.results, f.events + u.events, f.done, f.error, u.escaped);
    FinishSame(ch, n + 1 + |loop.events|, steps, loop);
    var last := LastEvent(steps, f.done, u.escaped);
    assert StartedVia(ch, n + 1, steps, w) == Undisturbed(loop.(events := f.events + u.events + [last]));
  }

  lemma {:induction false} LoopSame<W, R>(ch: Chokes, n: nat, steps: seq<SagaStep<W, R>>, w: W,
                                          f: ForwardRun<W, R>, u: UndoRun<W>)
    requires f == RunFrom(steps, 0, w, map[]) && u == Recover(steps, f)
    requires Harmless(ch, n, f.events) && Harmless(ch, n + |f.events|, u.events)
    ensures LoopVia(ch, n, steps, w) == SagaRun(u.world, f.results, f.events + u.events, f.done, f.error, u.escaped)
  {
    ForwardSame(ch, n, steps, 0, w, map[]);
    RecoverSame(ch, n + |f.events|, steps, f);
    LoopFrom(ch, n, steps, w, f, u);
  }

  lemma {:induction false} LoopFrom<W, R>(ch: Chokes, n: nat, steps: seq<SagaStep<W, R>>, w: W,
                                          f: ForwardRun<W, R>, u: UndoRun<W>)
    requires f == RunFromVia(ch, n, steps, 0, w, map[]) && u == RecoverVia(ch, n + |f.events|, steps, f)
    ensures LoopVia(ch, n, steps, w) == SagaRun(u.world, f.results, f.events + u.events, f.done, f.error, u.escaped)
  {}

  lemma {:induction false} StartedFrom<W, R>(ch: Chokes, n: nat, steps: seq<SagaStep<W, R>>, w: W,
                                             f: ForwardRun<W, R>, u: UndoRun<W>)
    requires f == RunFromVia(ch, n, steps, 0, w, map[]) && u == RecoverVia(ch, n + |f.events|, steps, f)
    ensures var loop := SagaRun(u.world, f.results, f.events + u.events, f.done, f.error, u.escaped);
            StartedVia(ch, n, steps, w) == FinishVia(ch, n + |loop.events|, steps, loop)
  {
    LoopFrom(ch, n, steps, w, f, u);
  }

  lemma {:induction false} FinishSame<W, R>(ch: Chokes, n: nat, steps: seq<SagaStep<W, R>>, loop: SagaRun<W, R>)
    requires !ch(n, LastEvent(steps, loop.done, loop.aborted))
    ensures FinishVia(ch, n, steps, loop) ==
            Undisturbed(loop.(events := loop.events + [LastEvent(steps, loop.done, loop.aborted)]))
  {}

  // ----- One that does harm -----

  /** A step that looks the same was not disturbed. */
  lemma {:induction false} SameStep<W, R>(ch: Chokes, n: nat, step: SagaStep<W, R>, w: W, results: map<string, R>)
    requires var s, t := ExecStep(step, w, results), ExecStepVia(ch, n, step, w, results);
             t.error.Some? == s.error.Some? && (s.error.Some? ==> t.error == s.error != Some(CannotReadMessage))
    ensures Harmless(ch, n, ExecStep(step, w, results).events)
    ensures ExecStepVia(ch, n, step, w, results) == ExecStep(step, w, results)
  {
    HarmlessStep(ch, n, step, w, results);
  }

  /** The two loops stop at the same step with the same error, which is not the logging's own. */
  predicate LooksSame<W, R>(f: ForwardRun<W, R>, g: ForwardRun<W, R>) {
    g.done == f.done && g.error == f.error && f.error != Some(CannotReadMessage)
  }

  lemma {:induction false} SameHead<W, R>(ch: Chokes, n: nat, steps: seq<SagaStep<W, R>>, i: nat, w: W,
                                          results: map<string, R>)
    requires i < |steps|
    requires LooksSame(RunFrom(steps, i, w, results), RunFromVia(ch, n, steps, i, w, results))
    ensures var s := ExecStep(steps[i], w, results);
            && Harmless(ch, n, s.events)
            && (s.error.None? ==> LooksSame(RunFrom(steps, i + 1, s.world, s.results),
                                            RunFromVia(ch, n + |s.events|, steps, i + 1, s.world, s.results)))
  {
    SameStep(ch, n, steps[i], w, results);
  }

  lemma {:induction false} SameIsHarmless<W, R>(ch: Chokes, n: nat, steps: seq<SagaStep<W, R>>, i: nat, w: W,
                                                results: map<string, R>)
    requires i <= |steps|
    requires LooksSame(RunFrom(steps, i, w, results), RunFromVia(ch, n, steps, i, w, results))
    ensures Harmless(ch, n, RunFrom(steps, i, w, results).events)
    decreases |steps| - i
  {
    if i < |steps| {
      var s := ExecStep(steps[i], w, results);
      SameHead(ch, n, steps, i, w, results);
      if s.error.None? {
        var rest := RunFrom(steps, i + 1, s.world, s.results);
        SameIsHarmless(ch, n + |s.events|, steps, i + 1, s.world, s.results);
        HarmlessJoin(ch, n, s.events, rest.events);
        assert RunFrom(steps, i, w, results).events == s.events + rest.events;
      } else {
        assert RunFrom(steps, i, w, results).events == s.events;
      }
    }
  }

  predicate AllWork(ends: seq<UndoEnd>) {
    forall end :: end in ends ==> end == Worked
  }

  /** The first undo works, and so do the others. */
  lemma {:induction false} FirstWorks<W, R>(steps: seq<SagaStep<W, R>>, w: W, results: map<string, R>)
    requires steps != [] && AllWork(UndoEnds(steps, w, results))
    ensures var u := UndoStep(steps[0], w, results);
            && !u.escaped && |u.events| == 2
            && AllWork(UndoEnds(steps[1..], u.world, results))
  {
    var ends := UndoEnds(steps, w, results);
    assert ends[0] in ends;
    assert forall end :: end in ends[1..] ==> end in ends;
    assert ends[1..] == UndoEnds(steps[1..], UndoStep(steps[0], w, results).world, results);
  }

  lemma {:induction false} FullUndo<W, R>(steps: seq<SagaStep<W, R>>, w: W, results: map<string, R>)
    requires AllWork(UndoEnds(steps, w, results))
    ensures |UndoAll(steps, w, results).events| == 2 * |steps| && !UndoAll(steps, w, results).escaped
  {
    if steps != [] {
      FirstWorks(steps, w, results);
      FullUndo(steps[1..], UndoStep(steps[0], w, results).world, results);
    }
  }

  /** Undos that all work publish two events each; a disturbed one publishes fewer. */
  lemma {:induction false} FullUndoIsHarmless<W, R>(ch: Chokes, n: nat, steps: seq<SagaStep<W, R>>, w: W,
                                                    results: map<string, R>)
    requires AllWork(UndoEnds(steps, w, results))
    requires |UndoAllVia(ch, n, steps, w, results).events| == 2 * |steps|
    ensures Harmless(ch, n, UndoAll(steps, w, results).events)
    decreases |steps|
  {
    if steps != [] {
      FirstWorks(steps, w, results);
      var u := UndoStep(steps[0], w, results);
      assert !ch(n, StepCompensating(steps[0].name)) by {
        UndoIsShort(ch, n + 1, steps[1..], w, results);
      }
      assert UndoStepVia(ch, n, steps[0], w, results) == u;
      FullUndoIsHarmless(ch, n + |u.events|, steps[1..], u.world, results);
      HarmlessUndo(ch, n, steps[0], w, results);
      HarmlessJoin(ch, n, u.events, UndoAll(steps[1..], u.world, results).events);
    }
  }

  lemma {:induction false} UndoIsShort<W, R>(ch: Chokes, n: nat, steps: seq<SagaStep<W, R>>, w: W,
                                             results: map<string, R>)
    ensures |UndoAllVia(ch, n, steps, w, results).events| <= 2 * |steps|
    decreases |steps|
  {
    if steps != [] {
      var u := UndoStepVia(ch, n, steps[0], w, results);
      UndoIsShort(ch, n + |u.events|, steps[1..], u.world, results);
    }
  }

  /** The run fails, if it does, with an error of its own, and every undo then works. */
  ghost predicate Ordinary<W(!new), R(!new)>(steps: seq<SagaStep<W, R>>, w: W) {
    forall k :: FirstFailure(steps, w, k) ==>
                  && Attempt(steps, w, k).error != Some(NoReason)
                  && Attempt(steps, w, k).error != Some(CannotReadMessage)
                  && AllWork(UndoEndsAt(steps, w, k))
  }

  lemma {:induction false} OrdinaryRun<W(!new), R(!new)>(steps: seq<SagaStep<W, R>>, w: W)
    requires Ordinary(steps, w)
    ensures var f := RunFrom(steps, 0, w, map[]);
            && f.error != Some(NoReason) && f.error != Some(CannotReadMessage)
            && (f.error.Some? ==> AllWork(UndoEnds(Reverse(steps[..f.done]), f.world, f.results)))
  {
    ForwardMeaning(steps, w, 0);
    var f := RunFrom(steps, 0, w, map[]);
    FirstFailureIsDone(steps, w, f.done);
    if f.error.Some? {
      assert UndoEndsAt(steps, w, f.done) == UndoEnds(Reverse(steps[..f.done]), f.world, f.results);
    }
  }

  lemma {:induction false} SameRecoverIsHarmless<W, R>(ch: Chokes, n: nat, steps: seq<SagaStep<W, R>>,
                                                       f: ForwardRun<W, R>)
    requires StopsIn(steps, f) && f.error != Some(NoReason)
    requires f.error.Some? ==> AllWork(UndoEnds(Reverse(steps[..f.done]), f.world, f.results))
    requires var u := RecoverVia(ch, n, steps, f);
             !u.escaped && |u.events| == |Recover(steps, f).events|
    ensures Harmless(ch, n, Recover(steps, f).events) && !Recover(steps, f).escaped
  {
    if f.error.Some? {
      FullUndo(Reverse(steps[..f.done]), f.world, f.results);
      FullUndoIsHarmless(ch, n + 2, Reverse(steps[..f.done]), f.world, f.results);
      HarmlessRecover(ch, n, steps, f);
    }
  }

  lemma {:induction false} OrdinaryParts<W(!new), R(!new)>(steps: seq<SagaStep<W, R>>, w: W)
    returns (f: ForwardRun<W, R>, u: UndoRun<W>)
    requires Ordinary(steps, w)
    ensures f == RunFrom(steps, 0, w, map[]) && u == Recover(steps, f) && !u.escaped
    ensures f.error != Some(NoReason) && f.error != Some(CannotReadMessage)
    ensures f.error.Some? ==> AllWork(UndoEnds(Reverse(steps[..f.done]), f.world, f.results))
    ensures RunSteps(steps, w).events ==
            [SagaStarted] + (f.events + u.events + [LastEvent(steps, f.done, false)])
  {
    f := RunFrom(steps, 0, w, map[]);
    u := Recover(steps, f);
    OrdinaryRun(steps, w);
    OrdinaryRecover(steps, f);
  }

  /** The exact condition, for every run that is not odd already: the publisher leaves it as it is
      if and only if it rejects without a reason on none of its events but STEP_COMPENSATED. */
  lemma {:induction false} PublisherIsHarmlessIff<W(!new), R(!new)>(ch: Chokes, n: nat, steps: seq<SagaStep<W, R>>,
                                                                    w: W)
    requires Ordinary(steps, w)
    ensures RunStepsVia(ch, n, steps, w) == Undisturbed(RunSteps(steps, w)) <==>
            Harmless(ch, n, RunSteps(steps, w).events)
  {
    if Harmless(ch, n, RunSteps(steps, w).events) {
      HarmlessPublisher(ch, n, steps, w);
    }
    if RunStepsVia(ch, n, steps, w) == Undisturbed(RunSteps(steps, w)) {
      var f, u := OrdinaryParts(steps, w);
      SameRunIsHarmless(ch, n, steps, w, f, u);
      PartsAreWhole(ch, n, f.events, u.events, LastEvent(steps, f.done, false), RunSteps(steps, w).events);
    }
  }

  lemma {:induction false} PartsAreWhole(ch: Chokes, n: nat, a: seq<SagaEvent>, b: seq<SagaEvent>, last: SagaEvent,
                                         whole: seq<SagaEvent>)
    requires whole == [SagaStarted] + (a + b + [last]) && !last.StepCompensated?
    requires !ch(n, SagaStarted) && Harmless(ch, n + 1, a) && Harmless(ch, n + 1 + |a|, b)
    requires !ch(n + 1 + |a + b|, last)
    ensures Harmless(ch, n, whole)
  {
    HarmlessWhole(ch, n, a, b, last);
  }

  /** What the loop of a run that was not aborted must have been. */
  lemma {:induction false} LoopOf<W, R>(ch: Chokes, n: nat, steps: seq<SagaStep<W, R>>, w: W)
    returns (loop: SagaRun<W, R>)
    requires !RunStepsVia(ch, n, steps, w).rejected && !RunStepsVia(ch, n, steps, w).run.aborted
    ensures loop == LoopVia(ch, n + 1, steps, w) && !loop.aborted && !ch(n, SagaStarted)
    ensures var last := LastEvent(steps, loop.done, false);
            && !ch(n + 1 + |loop.events|, last)
            && RunStepsVia(ch, n, steps, w).run == loop.(events := [SagaStarted] + (loop.events + [last]))
  {
    loop := LoopVia(ch, n + 1, steps, w);
  }

  lemma {:induction false} SameLength(a: seq<SagaEvent>, b: seq<SagaEvent>, x: SagaEvent, y: SagaEvent)
    requires [SagaStarted] + (a + [x]) == [SagaStarted] + (b + [y])
    ensures |a| == |b|
  {
    assert |[SagaStarted] + (a + [x])| == |a| + 2 && |[SagaStarted] + (b + [y])| == |b| + 2;
  }

  lemma {:induction false} LoopLooksSame<W, R>(ch: Chokes, n: nat, steps: seq<SagaStep<W, R>>, w: W,
                                               f: ForwardRun<W, R>, u: UndoRun<W>)
    requires f == RunFrom(steps, 0, w, map[]) && u == Recover(steps, f) && !u.escaped
    requires RunStepsVia(ch, n, steps, w) == Undisturbed(RunSteps(steps, w))
    ensures var loop := LoopVia(ch, n + 1, steps, w);
            && !loop.aborted && loop.done == f.done && loop.error == f.error && |loop.events| == |f.events + u.events|
            && !ch(n, SagaStarted) && !ch(n + 1 + |loop.events|, LastEvent(steps, f.done, false))
  {
    var loop := LoopOf(ch, n, steps, w);
    SameLength(loop.events, f.events + u.events, LastEvent(steps, loop.done, false), LastEvent(steps, f.done, false));
  }

  lemma {:induction false} SameRunIsHarmless<W, R>(ch: Chokes, n: nat, steps: seq<SagaStep<W, R>>, w: W,
                                                   f: ForwardRun<W, R>, u: UndoRun<W>)
    requires f == RunFrom(steps, 0, w, map[]) && u == Recover(steps, f) && !u.escaped
    requires f.error != Some(NoReason) && f.error != Some(CannotReadMessage)
    requires f.error.Some? ==> AllWork(UndoEnds(Reverse(steps[..f.done]), f.world, f.results))
    requires RunStepsVia(ch, n, steps, w) == Undisturbed(RunSteps(steps, w))
    ensures !ch(n, SagaStarted) && Harmless(ch, n + 1, f.events) && Harmless(ch, n + 1 + |f.events|, u.events)
    ensures !ch(n + 1 + |f.events + u.events|, LastEvent(steps, f.done, false))
  {
    LoopLooksSame(ch, n, steps, w, f, u);
    SameLoopIsHarmless(ch, n + 1, steps, w, f, u);
  }

  lemma {:induction false} OrdinaryRecover<W, R>(steps: seq<SagaStep<W, R>>, f: ForwardRun<W, R>)
    requires StopsIn(steps, f) && f.error != Some(NoReason)
    requires f.error.Some? ==> AllWork(UndoEnds(Reverse(steps[..f.done]), f.world, f.results))
    ensures !Recover(steps, f).escaped
  {
    if f.error.Some? {
      FullUndo(Reverse(steps[..f.done]), f.world, f.results);
    }
  }

  lemma {:induction false} SameLoopIsHarmless<W, R>(ch: Chokes, n: nat, steps: seq<SagaStep<W, R>>, w: W,
                                                    f: ForwardRun<W, R>, u: UndoRun<W>)
    requires f == RunFrom(steps, 0, w, map[]) && u == Recover(steps, f)
    requires f.error != Some(NoReason) && f.error != Some(CannotReadMessage)
    requires f.error.Some? ==> AllWork(UndoEnds(Reverse(steps[..f.done]), f.world, f.results))
    requires var loop := LoopVia(ch, n, steps, w);
             !loop.aborted && loop.done == f.done && loop.error == f.error && |loop.events| == |f.events + u.events|
    ensures Harmless(ch, n, f.events) && Harmless(ch, n + |f.events|, u.events)
  {
    SameIsHarmless(ch, n, steps, 0, w, map[]);
    ForwardSame(ch, n, steps, 0, w, map[]);
    SameRecoverIsHarmless(ch, n + |f.events|, steps, f);
  }

  // ----- What each rejection without a reason does -----

  /** On STEP_STARTED: the step is not executed and no hook is called, but it counts as failed. */
  lemma {:induction false} StartChoked<W, R>(ch: Chokes, n: nat, step: SagaStep<W, R>, w: W, results: map<string, R>)
    requires ch(n, StepStarted(step.name))
    ensures var s := ExecStepVia(ch, n, step, w, results);
            s.world == w && s.results == results && s.error == Some(CannotReadMessage)
  {}

  /** On STEP_COMPLETED: a step that was executed and recorded fails through its failure hook. */
  lemma {:induction false} CompletionChoked<W, R>(ch: Chokes, n: nat, step: SagaStep<W, R>, w: W,
                                                  results: map<string, R>)
    requires !ch(n, StepStarted(step.name)) && ch(n + 1, StepCompleted(step.name))
    requires ExecStep(step, w, results).error.None?
    ensures var s, t := ExecStep(step, w, results), ExecStepVia(ch, n, step, w, results);
            t.results == s.results && FailsThrough(step, s.world, s.results, CannotReadMessage, t)
  {
    FailMeaning(step, ExecStep(step, w, results).world, ExecStep(step, w, results).results, CannotReadMessage);
  }

  /** On STEP_FAILED or SAGA_COMPENSATING: nothing is undone, and the run is aborted. */
  lemma {:induction false} CompensationChoked<W, R>(ch: Chokes, n: nat, steps: seq<SagaStep<W, R>>, f: ForwardRun<W, R>)
    requires StopsIn(steps, f) && f.error.Some? && f.error.value.Because?
    requires ch(n, StepFailed(steps[f.done].name)) || ch(n + 1, SagaCompensating)
    ensures var u := RecoverVia(ch, n, steps, f); u.world == f.world && u.escaped
  {}

  /** On STEP_COMPENSATING: that undo is skipped and the others go on. */
  lemma {:induction false} UndoChoked<W, R>(ch: Chokes, n: nat, steps: seq<SagaStep<W, R>>, w: W,
                                            results: map<string, R>)
    requires steps != [] && ch(n, StepCompensating(steps[0].name))
    ensures var u, rest := UndoAllVia(ch, n, steps, w, results), UndoAllVia(ch, n + 1, steps[1..], w, results);
            u.world == rest.world && u.escaped == rest.escaped
  {}

  /** On the last event of the loop's outcome: the run is aborted, though all is done or undone.  On
      SAGA_FAILED, or on SAGA_STARTED before anything has run, the call rejects. */
  lemma {:induction false} EndChoked<W, R>(ch: Chokes, n: nat, steps: seq<SagaStep<W, R>>, loop: SagaRun<W, R>, w: W)
    ensures var p := FinishVia(ch, n, steps, loop);
            && p.run.world == loop.world && p.run.results == loop.results && p.run.done == loop.done
            && (!loop.aborted && ch(n, LastEvent(steps, loop.done, false)) ==>
                  p.run.aborted && (p.rejected <==> ch(n + 1, SagaFailed)))
            && (loop.aborted ==> p.run.aborted && (p.rejected <==> ch(n, SagaFailed)))
    ensures ch(n, SagaStarted) ==>
              var p := RunStepsVia(ch, n, steps, w);
              p.rejected && p.run.world == w && p.run.done == 0
  {}

  /** A publisher that rejects without a reason on STEP_COMPLETED: the step was executed, counts as
      failed and is not compensated. */
  lemma {:induction false} CompletionLost(n: nat)
    ensures var p := RunStepsVia((k: nat, e: SagaEvent) => e.StepCompleted?, n, [Adding("a", 1)], 0);
            p.run.world == 1 && p.run.done == 0 && StatusOf([Adding("a", 1)], p.run) == Compensated
  {
    var ch := (k: nat, e: SagaEvent) => e.StepCompleted?;
    var one := Adding("a", 1);
    assert ExecStepVia(ch, n + 1, one, 0, map[]).error == Some(CannotReadMessage);
    assert Reverse([one][..0]) == [];
  }
}
