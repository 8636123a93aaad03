/** What every saga run keeps, over all steps, all states and all outcomes. */
module SagaTheorems {
  import opened Wrappers
  import opened SagaSpec

  // ----- Where a run stops -----

  /** The state and results with which step `i` starts, if all before it succeed. */
  function Before<W, R>(steps: seq<SagaStep<W, R>>, w: W, i: nat): (W, map<string, R>)
    requires i <= |steps|
    decreases i, 0
  {
    if i == 0 then (w, map[])
    else
      var s := Attempt(steps, w, i - 1);
      (s.world, s.results)
  }

  function Attempt<W, R>(steps: seq<SagaStep<W, R>>, w: W, i: nat): StepRun<W, R>
    requires i < |steps|
    decreases i, 1
  {
    var (w', results) := Before(steps, w, i);
    ExecStep(steps[i], w', results)
  }

  lemma {:induction false} ForwardMeaning<W, R>(steps: seq<SagaStep<W, R>>, w: W, i: nat)
    requires i <= |steps|
    requires forall j :: 0 <= j < i ==> Attempt(steps, w, j).error.None?
    ensures var b := Before(steps, w, i);
            var f := RunFrom(steps, i, b.0, b.1);
            && (forall j :: 0 <= j < f.done ==> Attempt(steps, w, j).error.None?)
            && (f.done < |steps| ==>
                  var s := Attempt(steps, w, f.done);
                  s.error.Some? && f.error == s.error && f.world == s.world && f.results == s.results)
            && (f.done == |steps| ==> (f.world, f.results) == Before(steps, w, |steps|))
    decreases |steps| - i
  {
    if i < |steps| && Attempt(steps, w, i).error.None? {
      ForwardMeaning(steps, w, i + 1);
    }
  }

  /** What an attempt does, call by call.  A result is recorded before the completion hook sees it;
      whatever then fails, `execute` or that hook, goes to the failure hook, whose own error, if it
      throws one, takes its place. */
  lemma {:induction false} AttemptMeaning<W, R>(step: SagaStep<W, R>, w: W, rs: map<string, R>)
    ensures var s := ExecStep(step, w, rs);
            match step.execute(w, rs)
            case (w1, Threw(e)) => s.results == rs && FailsThrough(step, w1, rs, e, s)
            case (w1, Done(r)) =>
              && s.results == rs[step.name := r]
              && match step.onStepComplete
                 case None => s.world == w1 && s.error.None?
                 case Some(hook) =>
                   var (w2, thrown) := hook(w1, s.results, r);
                   match thrown
                   case None => s.world == w2 && s.error.None?
                   case Some(e) => FailsThrough(step, w2, s.results, e, s)
  {
    match step.execute(w, rs)
    case (w1, Threw(e)) =>
      FailMeaning(step, w1, rs, e);
    case (w1, Done(r)) =>
      if step.onStepComplete.Some? {
        var (w2, thrown) := step.onStepComplete.value(w1, rs[step.name := r], r);
        if thrown.Some? {
          FailMeaning(step, w2, rs[step.name := r], thrown.value);
        }
      }
  }

  lemma {:induction false} FailMeaning<W, R>(step: SagaStep<W, R>, w: W, rs: map<string, R>, e: Reason)
    ensures var s := FailStep(step, w, rs, e); s.results == rs && FailsThrough(step, w, rs, e, s)
  {}

  /** The attempt ends with what the failure hook makes of the error `e` in the state `w`. */
  ghost predicate FailsThrough<W, R>(step: SagaStep<W, R>, w: W, rs: map<string, R>, e: Reason, s: StepRun<W, R>) {
    && (step.onStepFailed.None? ==> s.world == w && s.error == Some(e))
    && (step.onStepFailed.Some? ==>
          var (w', thrown) := step.onStepFailed.value(w, rs, e);
          s.world == w' && s.error == if thrown.Some? then thrown else Some(e))
  }

  /** An undo is given the result recorded under the step's name, if there is one; it escapes only
      by rejecting without a reason. */
  lemma {:induction false} UndoMeaning<W, R>(step: SagaStep<W, R>, w: W, rs: map<string, R>)
    ensures var u := UndoStep(step, w, rs);
            var (w', thrown) := step.compensate(w, rs, if step.name in rs then Some(rs[step.name]) else None);
            && u.world == w' && (u.escaped <==> thrown == Some(NoReason))
            && (StepCompensated(step.name) in u.events <==> thrown.None?)
  {}

  /** The completed steps are exactly those before the first failing attempt. */
  lemma {:induction false} CompletedIsPrefixBeforeFirstFailure<W, R>(steps: seq<SagaStep<W, R>>, w: W)
    ensures var k := RunSteps(steps, w).done;
            && (forall j :: 0 <= j < k ==> Attempt(steps, w, j).error.None?)
            && (k < |steps| ==> Attempt(steps, w, k).error.Some?)
            && RunSteps(steps, w).error == (if k < |steps| then Attempt(steps, w, k).error else None)
  {
    ForwardMeaning(steps, w, 0);
  }

  // ----- What the status tells -----

  /** Runs over a state of their own: what only the names decide can be decided on these. */
  type UnitStep = SagaStep<(), ()>

  /** No run of steps with these names reports COMPLETED after a failure. */
  ghost predicate FailuresShow(names: seq<string>) {
    forall steps: seq<UnitStep> :: NamesOf(steps) == names && RunSteps(steps, ()).error.Some? ==>
                                     StatusOf(steps, RunSteps(steps, ())) != Completed
  }

  /** A failed run is reported as other than COMPLETED unless nothing aborted it and the failing
      step's name is empty, which the source's truth test takes for no failure at all. */
  lemma {:induction false} StatusReflectsFailure<W, R>(steps: seq<SagaStep<W, R>>, w: W)
    ensures var run := RunSteps(steps, w);
            (StatusOf(steps, run) != Completed <==> exists j :: 0 <= j < |steps| && Attempt(steps, w, j).error.Some?
                                                     && forall i :: 0 <= i < j ==> Attempt(steps, w, i).error.None?)
            <==> (run.done < |steps| && !run.aborted ==> steps[run.done].name != "")
  {
    CompletedIsPrefixBeforeFirstFailure(steps, w);
    var k := RunSteps(steps, w).done;
    if k < |steps| {
      assert Attempt(steps, w, k).error.Some?;
    }
  }

  /** A saga whose only step throws and has an empty name reports COMPLETED. */
  lemma {:induction false} EmptyNameHidesFailure()
    ensures var run := RunSteps(Scripted([""], 0, true, []), ());
            run.error == Some(Because("failed")) && StatusOf(Scripted([""], 0, true, []), run) == Completed
    ensures RunSteps(Scripted([""], 0, true, []), ()).events == [SagaStarted, StepStarted(""), StepFailed(""),
                                                                 SagaCompensating, SagaCompleted]
  {
    ScriptedRun([""], 0, true, []);
  }

  /** The status tells every failure, of all runs of steps so named, if and only if no name is empty. */
  lemma {:induction false} FailuresShowIffNamed(names: seq<string>)
    ensures FailuresShow(names) <==> forall k :: 0 <= k < |names| ==> names[k] != ""
  {
    if k :| 0 <= k < |names| && names[k] == "" {
      var threw := seq(k, _ => Worked);
      ScriptedRun(names, k, true, threw);
      var steps := Scripted(names, k, true, threw);
      assert NamesOf(steps) == names && RunSteps(steps, ()).error.Some?;
      assert StatusOf(steps, RunSteps(steps, ())) == Completed;
    } else {
      forall steps: seq<UnitStep> | NamesOf(steps) == names && RunSteps(steps, ()).error.Some?
        ensures StatusOf(steps, RunSteps(steps, ())) != Completed
      {
        var k := RunSteps(steps, ()).done;
        assert k < |steps|;
        assert NamesOf(steps)[k] == steps[k].name;
      }
    }
  }

  // ----- The trace language -----

  /** How an undo ends: well, with an error, or with something that has no message. */
  datatype UndoEnd = Worked | Raised | Escaped

  function EndOf(thrown: Option<Reason>): UndoEnd {
    match thrown
    case None => Worked
    case Some(Because(_)) => Raised
    case Some(NoReason) => Escaped
  }

  function Pairs(names: seq<string>): seq<SagaEvent> {
    if names == [] then [] else [StepStarted(names[0]), StepCompleted(names[0])] + Pairs(names[1..])
  }

  /** `ends[i]` says how the undo of `names[i]` ends; the first that escapes is the last one made. */
  function Undos(names: seq<string>, ends: seq<UndoEnd>): seq<SagaEvent>
    requires |names| == |ends|
  {
    if names == [] then []
    else [StepCompensating(names[0])] + (if ends[0] == Worked then [StepCompensated(names[0])] else []) +
         if ends[0] == Escaped then [] else Undos(names[1..], ends[1..])
  }

  /** The word of a run whose first `k` steps complete; for `k < |names|` step `k` fails, with an
      error or without, and in the first case the undos, in reverse, end as `ends` says. */
  function Word(names: seq<string>, k: nat, reason: bool, ends: seq<UndoEnd>): seq<SagaEvent>
    requires k <= |names| && |ends| == k
  {
    if k == |names| then [SagaStarted] + (Pairs(names) + [SagaCompleted])
    else if !reason then [SagaStarted] + (Pairs(names[..k]) + [StepStarted(names[k])] + [SagaFailed])
    else [SagaStarted] +
         (Pairs(names[..k]) + [StepStarted(names[k])] +
          ([StepFailed(names[k]), SagaCompensating] + Undos(Reverse(names[..k]), ends)) +
          [if Escaped in ends then SagaFailed else if names[k] == "" then SagaCompleted else SagaCompensated])
  }

  function UndoEnds<W, R>(steps: seq<SagaStep<W, R>>, w: W, results: map<string, R>): (ends: seq<UndoEnd>)
    ensures |ends| == |steps|
  {
    if steps == [] then []
    else
      var (w', thrown) := steps[0].compensate(w, results, Lookup(results, steps[0].name));
      [EndOf(thrown)] +
      if thrown == Some(NoReason) then seq(|steps| - 1, _ => Worked) else UndoEnds(steps[1..], w', results)
  }

  lemma {:induction false} ForwardWord<W, R>(steps: seq<SagaStep<W, R>>, i: nat, w: W, results: map<string, R>)
    requires i <= |steps|
    ensures var f := RunFrom(steps, i, w, results);
            f.events == Pairs(NamesOf(steps)[i..f.done]) +
                        if f.done < |steps| then [StepStarted(steps[f.done].name)] else []
    decreases |steps| - i
  {
    var f := RunFrom(steps, i, w, results);
    if i < |steps| {
      var s := ExecStep(steps[i], w, results);
      if s.error.None? {
        ForwardWord(steps, i + 1, s.world, s.results);
        var names := NamesOf(steps)[i..f.done];
        assert names[1..] == NamesOf(steps)[i + 1..f.done];
      }
    }
  }

  /** The undos of these steps publish what `ends` says. */
  ghost predicate UndoneAs<W, R>(steps: seq<SagaStep<W, R>>, w: W, results: map<string, R>, ends: seq<UndoEnd>)
    requires |ends| == |steps|
  {
    var u := UndoAll(steps, w, results);
    u.events == Undos(NamesOf(steps), ends) && (u.escaped <==> Escaped in ends)
  }

  lemma {:induction false} UndoWordStep<W, R>(steps: seq<SagaStep<W, R>>, w: W, results: map<string, R>,
                                              ends: seq<UndoEnd>)
    requires |ends| == |steps| > 0
    requires ends[0] == EndOf(steps[0].compensate(w, results, Lookup(results, steps[0].name)).1)
    requires ends[0] == Escaped || UndoneAs(steps[1..], UndoStep(steps[0], w, results).world, results, ends[1..])
    ensures UndoneAs(steps, w, results, ends)
  {
    var u := UndoStep(steps[0], w, results);
    assert NamesOf(steps)[1..] == NamesOf(steps[1..]) && NamesOf(steps)[0] == steps[0].name;
    assert u.escaped <==> ends[0] == Escaped;
    assert u.events == [StepCompensating(steps[0].name)] +
                       if ends[0] == Worked then [StepCompensated(steps[0].name)] else [];
    assert ends == [ends[0]] + ends[1..];
    assert u.events + [] == u.events;
  }

  lemma {:induction false} UndoWord<W, R>(steps: seq<SagaStep<W, R>>, w: W, results: map<string, R>)
    ensures UndoneAs(steps, w, results, UndoEnds(steps, w, results))
  {
    if steps != [] {
      var ends := UndoEnds(steps, w, results);
      var u := UndoStep(steps[0], w, results);
      if !u.escaped {
        UndoWord(steps[1..], u.world, results);
        assert ends[1..] == UndoEnds(steps[1..], u.world, results);
      }
      UndoWordStep(steps, w, results, ends);
    }
  }

  lemma {:induction false} ReverseNames<W, R>(steps: seq<SagaStep<W, R>>, k: nat)
    requires k <= |steps|
    ensures NamesOf(Reverse(steps[..k])) == Reverse(NamesOf(steps)[..k])
  {}

  lemma {:induction false} CompletedWord<W, R>(steps: seq<SagaStep<W, R>>, w: W, reason: bool, ends: seq<UndoEnd>)
    requires |ends| == RunSteps(steps, w).done == |steps|
    ensures RunSteps(steps, w).events == Word(NamesOf(steps), |steps|, reason, ends)
  {
    ForwardWord(steps, 0, w, map[]);
    assert NamesOf(steps)[0..|steps|] == NamesOf(steps);
  }

  lemma {:induction false} FailedWord<W, R>(steps: seq<SagaStep<W, R>>, w: W, k: nat, ends: seq<UndoEnd>)
    requires k == |ends| == RunSteps(steps, w).done < |steps|
    requires var f := RunFrom(steps, 0, w, map[]);
             f.error.value.Because? ==> UndoneAs(Reverse(steps[..k]), f.world, f.results, ends)
    ensures RunSteps(steps, w).events ==
            Word(NamesOf(steps), k, RunSteps(steps, w).error.value.Because?, ends)
  {
    var f := RunFrom(steps, 0, w, map[]);
    var names := NamesOf(steps);
    ForwardWord(steps, 0, w, map[]);
    ReverseNames(steps, k);
    assert names[0..k] == names[..k];
    assert f.events + [] == f.events;
  }

  /** How the undos of the first `k` steps end, last first, when the attempt at step `k` has failed. */
  function UndoEndsAt<W, R>(steps: seq<SagaStep<W, R>>, w: W, k: nat): (ends: seq<UndoEnd>)
    requires k < |steps|
    ensures |ends| == k
  {
    var s := Attempt(steps, w, k);
    UndoEnds(Reverse(steps[..k]), s.world, s.results)
  }

  /** Every run publishes the word of what happened in it: which attempt was the first to fail, with
      what, and how each undo then ended. */
  lemma {:induction false} TraceIsAWord<W, R>(steps: seq<SagaStep<W, R>>, w: W)
    ensures var run, names := RunSteps(steps, w), NamesOf(steps);
            run.events ==
            if run.done == |steps| then Word(names, run.done, true, seq(run.done, _ => Worked))
            else Word(names, run.done, Attempt(steps, w, run.done).error != Some(NoReason),
                      UndoEndsAt(steps, w, run.done))
  {
    var f := RunFrom(steps, 0, w, map[]);
    ForwardMeaning(steps, w, 0);
    if f.done == |steps| {
      CompletedWord(steps, w, true, seq(f.done, _ => Worked));
    } else {
      UndoWord(Reverse(steps[..f.done]), f.world, f.results);
      FailedWord(steps, w, f.done, UndoEndsAt(steps, w, f.done));
    }
  }

  function Thrown(end: UndoEnd): Option<Reason> {
    match end
    case Worked => None
    case Raised => Some(Because("undo failed"))
    case Escaped => Some(NoReason)
  }

  /** Steps that follow a script: the first `k` succeed, step `k` throws, and the undo of step
      `i` ends as `ends[k - 1 - i]` says. */
  function Scripted(names: seq<string>, k: nat, reason: bool, ends: seq<UndoEnd>): (steps: seq<UnitStep>)
    requires |ends| == k
    ensures |steps| == |names|
    ensures NamesOf(steps) == names
  {
    seq(|names|, i requires 0 <= i < |names| =>
      SagaStep(names[i], i as real,
               (w: (), rs: map<string, ()>) =>
                 (w, if i != k then Done(()) else Threw(if reason then Because("failed") else NoReason)),
               (w: (), rs: map<string, ()>, r: Option<()>) => (w, if i < k then Thrown(ends[k - 1 - i]) else None),
               None, None))
  }

  lemma {:induction false} ScriptedForward(names: seq<string>, k: nat, reason: bool, ends: seq<UndoEnd>,
                                           i: nat, rs: map<string, ()>)
    requires i <= k <= |names| && |ends| == k
    ensures var f := RunFrom(Scripted(names, k, reason, ends), i, (), rs);
            f.done == k && (k < |names| ==> f.error == Some(if reason then Because("failed") else NoReason))
    decreases k - i
  {
    var steps := Scripted(names, k, reason, ends);
    if i < |names| {
      var s := ExecStep(steps[i], (), rs);
      assert s.error.Some? <==> i == k;
      if i < k {
        ScriptedForward(names, k, reason, ends, i + 1, s.results);
      }
    }
  }

  lemma {:induction false} ScriptedUndo(names: seq<string>, k: nat, ends: seq<UndoEnd>, j: nat, rs: map<string, ()>)
    requires j <= k < |names| && |ends| == k
    ensures UndoneAs(Reverse(Scripted(names, k, true, ends)[..j]), (), rs, ends[k - j..])
  {
    if j > 0 {
      var steps := Scripted(names, k, true, ends);
      var undone := Reverse(steps[..j]);
      assert undone[0] == steps[j - 1] && undone[1..] == Reverse(steps[..j - 1]);
      assert ends[k - j..][1..] == ends[k - (j - 1)..];
      ScriptedUndo(names, k, ends, j - 1, rs);
      assert undone[0].compensate((), rs, Lookup(rs, undone[0].name)).1 == Thrown(ends[k - 1 - (j - 1)]);
      UndoWordStep(undone, (), rs, ends[k - j..]);
    }
  }

  lemma {:induction false} ScriptedRun(names: seq<string>, k: nat, reason: bool, ends: seq<UndoEnd>)
    requires k < |names| && |ends| == k
    ensures var run := RunSteps(Scripted(names, k, reason, ends), ());
            && run.done == k && run.error == Some(if reason then Because("failed") else NoReason)
            && run.aborted == (!reason || Escaped in ends)
            && run.events == Word(names, k, reason, ends)
  {
    var steps := Scripted(names, k, reason, ends);
    ScriptedForward(names, k, reason, ends, 0, map[]);
    var f := RunFrom(steps, 0, (), map[]);
    assert f.world == () && ends[0..] == ends;
    if reason {
      ScriptedUndo(names, k, ends, k, f.results);
    }
    FailedWord(steps, (), k, ends);
  }

  /** Every word of the language is published by some run, so the language is exactly that. */
  lemma {:induction false} EveryWordIsATrace(names: seq<string>, k: nat, reason: bool, ends: seq<UndoEnd>)
    requires k <= |names| && |ends| == k
    ensures exists steps: seq<UnitStep> ::
              NamesOf(steps) == names && RunSteps(steps, ()).events == Word(names, k, reason, ends)
  {
    var steps := Scripted(names, k, reason, ends);
    if k < |names| {
      ScriptedRun(names, k, reason, ends);
    } else {
      ScriptedForward(names, k, reason, ends, 0, map[]);
      CompletedWord(steps, (), reason, ends);
    }
    assert NamesOf(steps) == names && RunSteps(steps, ()).events == Word(names, k, reason, ends);
  }

  // ----- When nothing is compensated -----

  lemma {:induction false} PairsAreForward(names: seq<string>, e: SagaEvent)
    ensures e in Pairs(names) ==> e.StepStarted? || e.StepCompleted?
  {
    if names != [] {
      PairsAreForward(names[1..], e);
    }
  }

  /** Step `k` is the first whose attempt fails. */
  ghost predicate FirstFailure<W, R>(steps: seq<SagaStep<W, R>>, w: W, k: nat) {
    && k < |steps| && Attempt(steps, w, k).error.Some?
    && forall j :: 0 <= j < k ==> Attempt(steps, w, j).error.None?
  }

  lemma {:induction false} FirstFailureIsDone<W, R>(steps: seq<SagaStep<W, R>>, w: W, k: nat)
    ensures FirstFailure(steps, w, k) <==> RunSteps(steps, w).error.Some? && k == RunSteps(steps, w).done
  {
    CompletedIsPrefixBeforeFirstFailure(steps, w);
    var done := RunSteps(steps, w).done;
    if FirstFailure(steps, w, k) {
      assert !(k < done);
      assert !(done < k);
    }
  }

  /** Compensation begins in a run if and only if its first failing attempt threw something that has
      a message; without one, the run is FAILED with every completed step left standing. */
  lemma {:induction false} CompensationBeginsIff<W, R>(steps: seq<SagaStep<W, R>>, w: W)
    ensures SagaCompensating in RunSteps(steps, w).events <==>
            exists k :: FirstFailure(steps, w, k) && Attempt(steps, w, k).error != Some(NoReason)
    ensures forall k :: FirstFailure(steps, w, k) && Attempt(steps, w, k).error == Some(NoReason) ==>
                          var run := RunSteps(steps, w);
                          StatusOf(steps, run) == Failed && run.world == Attempt(steps, w, k).world
  {
    var f := RunFrom(steps, 0, w, map[]);
    ForwardMeaning(steps, w, 0);
    ForwardWord(steps, 0, w, map[]);
    PairsAreForward(NamesOf(steps)[0..f.done], SagaCompensating);
    assert SagaCompensating !in f.events;
    forall k: nat
      ensures FirstFailure(steps, w, k) <==> f.error.Some? && k == f.done
    {
      FirstFailureIsDone(steps, w, k);
    }
    if f.error.Some? && f.error.value.Because? {
      assert Recover(steps, f).events[1] == SagaCompensating;
      assert SagaCompensating in Recover(steps, f).events;
      assert FirstFailure(steps, w, f.done);
    }
  }

  /** The first attempt to fail threw nothing that has a message, or one of the undos then made
      rejects so.  `UndoEnds` lists the undos up to the first that does. */
  ghost predicate LacksReason<W(!new), R(!new)>(steps: seq<SagaStep<W, R>>, w: W) {
    exists k :: FirstFailure(steps, w, k) &&
                (Attempt(steps, w, k).error == Some(NoReason) || Escaped in UndoEndsAt(steps, w, k))
  }

  /** A run ends in the outermost catch block if and only if a reason is missing where it is read. */
  lemma {:induction false} AbortedIff<W(!new), R(!new)>(steps: seq<SagaStep<W, R>>, w: W)
    ensures RunSteps(steps, w).aborted <==> LacksReason(steps, w)
  {
    var f := RunFrom(steps, 0, w, map[]);
    ForwardMeaning(steps, w, 0);
    forall k: nat
      ensures FirstFailure(steps, w, k) <==> f.error.Some? && k == f.done
    {
      FirstFailureIsDone(steps, w, k);
    }
    if f.done < |steps| {
      UndoWord(Reverse(steps[..f.done]), f.world, f.results);
      assert FirstFailure(steps, w, f.done);
    }
  }

  /** The first step completes, the second rejects with no reason: FAILED, and the first stands. */
  lemma {:induction false} RejectionWithoutReason()
    ensures var steps := [Adding("a", 1), Rejecting(NoReason)];
            RunSteps(steps, 0).world == 1 && StatusOf(steps, RunSteps(steps, 0)) == Failed
  {
    var one, bad := Adding("a", 1), Rejecting(NoReason);
    var steps := [one, bad];
    assert RunFrom(steps, 1, 1, map["a" := 1]) ==
           ForwardRun(1, map["a" := 1], [StepStarted("reject")], 1, Some(NoReason));
  }

  // ----- Exact accounting of calls -----

  datatype Call<R> = Executed(name: string) | Undone(name: string, result: Option<R>)

  datatype Logged<W, R> = Logged(world: W, calls: seq<Call<R>>)

  /** The same step, writing down each call that is made of it. */
  function Instrument<W, R>(step: SagaStep<W, R>): SagaStep<Logged<W, R>, R> {
    SagaStep(
      step.name, step.order,
      (l: Logged<W, R>, rs: map<string, R>) =>
        var (w', o) := step.execute(l.world, rs); (Logged(w', l.calls + [Executed(step.name)]), o),
      (l: Logged<W, R>, rs: map<string, R>, r: Option<R>) =>
        var (w', t) := step.compensate(l.world, rs, r); (Logged(w', l.calls + [Undone(step.name, r)]), t),
      if step.onStepComplete.None? then None else
        Some((l: Logged<W, R>, rs: map<string, R>, r: R) =>
          var (w', t) := step.onStepComplete.value(l.world, rs, r); (Logged(w', l.calls), t)),
      if step.onStepFailed.None? then None else
        Some((l: Logged<W, R>, rs: map<string, R>, e: Reason) =>
          var (w', t) := step.onStepFailed.value(l.world, rs, e); (Logged(w', l.calls), t)))
  }

  function InstrumentAll<W, R>(steps: seq<SagaStep<W, R>>): (r: seq<SagaStep<Logged<W, R>, R>>)
    ensures |r| == |steps|
  {
    seq(|steps|, i requires 0 <= i < |steps| => Instrument(steps[i]))
  }

  /** `b` does to a logged state what `a` does to the state, and writes down one call. */
  ghost predicate Mirrors<W(!new), R(!new)>(a: SagaStep<W, R>, b: SagaStep<Logged<W, R>, R>) {
    && (forall l: Logged<W, R>, rs: map<string, R> ::
          var s, t := ExecStep(a, l.world, rs), ExecStep(b, l, rs);
          t.world == Logged(s.world, l.calls + [Executed(a.name)]) && t.results == s.results && t.error == s.error)
    && (forall l: Logged<W, R>, rs: map<string, R> ::
          var u, v := UndoStep(a, l.world, rs), UndoStep(b, l, rs);
          v.world == Logged(u.world, l.calls + [Undone(a.name, Lookup(rs, a.name))]) && v.escaped == u.escaped)
  }

  ghost predicate MirrorsAll<W(!new), R(!new)>(steps: seq<SagaStep<W, R>>, all: seq<SagaStep<Logged<W, R>, R>>) {
    |all| == |steps| && forall i :: 0 <= i < |steps| ==> Mirrors(steps[i], all[i])
  }

  lemma {:induction false} InstrumentMirrors<W(!new), R(!new)>(step: SagaStep<W, R>)
    ensures Mirrors(step, Instrument(step))
  {}

  /** Every list of steps can be logged so. */
  lemma {:induction false} InstrumentMirrorsAll<W(!new), R(!new)>(steps: seq<SagaStep<W, R>>)
    ensures MirrorsAll(steps, InstrumentAll(steps))
  {
    forall i | 0 <= i < |steps|
      ensures Mirrors(steps[i], InstrumentAll(steps)[i])
    {
      InstrumentMirrors(steps[i]);
    }
  }

  /** One execute call for each of the steps `i`, ..., `n - 1`. */
  function ExecutedCalls<W, R>(steps: seq<SagaStep<W, R>>, i: nat, n: nat): seq<Call<R>>
    requires n <= |steps|
    decreases n - i
  {
    if i >= n then [] else [Executed(steps[i].name)] + ExecutedCalls(steps, i + 1, n)
  }

  /** One compensate call for each step given, in that order, with the result recorded for it. */
  function UndoneCalls<W, R>(steps: seq<SagaStep<W, R>>, results: map<string, R>): seq<Call<R>> {
    if steps == [] then []
    else [Undone(steps[0].name, Lookup(results, steps[0].name))] + UndoneCalls(steps[1..], results)
  }

  /** How many of the undos are made: all, or those up to the first that ends without a message. */
  function UndosMade<W, R>(steps: seq<SagaStep<W, R>>, w: W, results: map<string, R>): (n: nat)
    ensures n <= |steps| && (!UndoAll(steps, w, results).escaped ==> n == |steps|)
  {
    if steps == [] then 0
    else
      var u := UndoStep(steps[0], w, results);
      1 + if u.escaped then 0 else UndosMade(steps[1..], u.world, results)
  }

  lemma {:induction false} MirroredStep<W(!new), R(!new)>(
    a: SagaStep<W, R>, b: SagaStep<Logged<W, R>, R>, l: Logged<W, R>, rs: map<string, R>)
    requires Mirrors(a, b)
    ensures var s, t := ExecStep(a, l.world, rs), ExecStep(b, l, rs);
            t.world == Logged(s.world, l.calls + [Executed(a.name)]) && t.results == s.results && t.error == s.error
  {}

  lemma {:induction false} MirroredForward<W(!new), R(!new)>(
    steps: seq<SagaStep<W, R>>, all: seq<SagaStep<Logged<W, R>, R>>, i: nat, l: Logged<W, R>, rs: map<string, R>)
    requires i <= |steps| && MirrorsAll(steps, all)
    ensures var f, g := RunFrom(steps, i, l.world, rs), RunFrom(all, i, l, rs);
            var tried := if f.done < |steps| then f.done + 1 else f.done;
            && g.world.world == f.world && g.world.calls == l.calls + ExecutedCalls(steps, i, tried)
            && g.results == f.results && g.done == f.done && g.error == f.error
    decreases |steps| - i
  {
    var f := RunFrom(steps, i, l.world, rs);
    var tried := if f.done < |steps| then f.done + 1 else f.done;
    if i < |steps| {
      var s := ExecStep(steps[i], l.world, rs);
      var l' := Logged(s.world, l.calls + [Executed(steps[i].name)]);
      assert Mirrors(steps[i], all[i]);
      MirroredStep(steps[i], all[i], l, rs);
      var t := ExecStep(all[i], l, rs);
      assert t.world == l' && t.results == s.results && t.error == s.error;
      Join(l.calls, [Executed(steps[i].name)], ExecutedCalls(steps, i + 1, tried));
      if s.error.None? {
        MirroredForward(steps, all, i + 1, l', s.results);
      } else {
        assert ExecutedCalls(steps, i + 1, tried) == [];
      }
    }
  }

  lemma {:induction false} MirroredUndo<W(!new), R(!new)>(
    steps: seq<SagaStep<W, R>>, all: seq<SagaStep<Logged<W, R>, R>>, l: Logged<W, R>, rs: map<string, R>)
    requires MirrorsAll(steps, all)
    ensures var u, v := UndoAll(steps, l.world, rs), UndoAll(all, l, rs);
            && v.world.world == u.world && v.escaped == u.escaped
            && v.world.calls == l.calls + UndoneCalls(steps[..UndosMade(steps, l.world, rs)], rs)
  {
    if steps != [] {
      assert Mirrors(steps[0], all[0]);
      var v := UndoStep(all[0], l, rs);
      var n := UndosMade(steps, l.world, rs);
      var made := steps[..n];
      assert made[0] == steps[0] && made[1..] == steps[1..][..n - 1];
      Join(l.calls, [Undone(steps[0].name, Lookup(rs, steps[0].name))], UndoneCalls(made[1..], rs));
      if !v.escaped {
        MirroredUndo(steps[1..], all[1..], v.world, rs);
      }
    }
  }

  /** The compensations owed once the loop has stopped: none unless an error with a message stopped
      it, else those of the completed steps, last first, as far as they are made. */
  function OwedCalls<W, R>(steps: seq<SagaStep<W, R>>, f: ForwardRun<W, R>): seq<Call<R>>
    requires StopsIn(steps, f)
  {
    if f.error.Some? && f.error.value.Because? then
      var undone := Reverse(steps[..f.done]);
      UndoneCalls(undone[..UndosMade(undone, f.world, f.results)], f.results)
    else []
  }

  lemma {:induction false} MirrorsReversed<W(!new), R(!new)>(
    steps: seq<SagaStep<W, R>>, all: seq<SagaStep<Logged<W, R>, R>>, k: nat)
    requires MirrorsAll(steps, all) && k <= |steps|
    ensures MirrorsAll(Reverse(steps[..k]), Reverse(all[..k]))
  {
    var a, b := Reverse(steps[..k]), Reverse(all[..k]);
    forall i | 0 <= i < k
      ensures Mirrors(a[i], b[i])
    {
      var j := k - 1 - i;
      assert a[i] == steps[j] && b[i] == all[j];
    }
  }

  lemma {:induction false} MirroredFinish<W(!new), R(!new)>(
    steps: seq<SagaStep<W, R>>, all: seq<SagaStep<Logged<W, R>, R>>,
    f: ForwardRun<W, R>, g: ForwardRun<Logged<W, R>, R>)
    requires StopsIn(steps, f) && StopsIn(all, g) && |all| == |steps|
    requires g.world.world == f.world && g.results == f.results && g.done == f.done && g.error == f.error
    requires f.done < |steps| ==> MirrorsAll(Reverse(steps[..f.done]), Reverse(all[..f.done]))
    ensures var u, v := Recover(steps, f), Recover(all, g);
            && v.world.world == u.world && v.escaped == u.escaped
            && v.world.calls == g.world.calls + OwedCalls(steps, f)
  {
    if f.error.Some? && f.error.value.Because? {
      MirroredUndo(Reverse(steps[..f.done]), Reverse(all[..f.done]), g.world, f.results);
    }
  }

  lemma {:induction false} MirroredStart<W(!new), R(!new)>(
    steps: seq<SagaStep<W, R>>, all: seq<SagaStep<Logged<W, R>, R>>, w: W)
    returns (f: ForwardRun<W, R>, g: ForwardRun<Logged<W, R>, R>)
    requires MirrorsAll(steps, all)
    ensures f == RunFrom(steps, 0, w, map[]) && g == RunFrom(all, 0, Logged(w, []), map[])
    ensures g.world.world == f.world && g.results == f.results && g.done == f.done && g.error == f.error
    ensures g.world.calls == ExecutedCalls(steps, 0, if f.done < |steps| then f.done + 1 else f.done)
    ensures MirrorsAll(Reverse(steps[..f.done]), Reverse(all[..f.done]))
  {
    f, g := RunFrom(steps, 0, w, map[]), RunFrom(all, 0, Logged(w, []), map[]);
    MirroredForward(steps, all, 0, Logged(w, []), map[]);
    MirrorsReversed(steps, all, f.done);
  }

  /** Each step up to the first failing one is executed exactly once and no later one at all; if
      one fails with an error, each completed step's compensation is attempted exactly once, in
      reverse, with the result then recorded under its name, whatever errors the others throw: only
      one that rejects without a reason ends it.  Logging changes nothing else. */
  lemma {:induction false} ExactAccounting<W(!new), R(!new)>(
    steps: seq<SagaStep<W, R>>, all: seq<SagaStep<Logged<W, R>, R>>, w: W)
    requires MirrorsAll(steps, all)
    ensures var run, logged := RunSteps(steps, w), RunSteps(all, Logged(w, []));
            var f := RunFrom(steps, 0, w, map[]);
            && logged.world.world == run.world
            && logged.world.calls == ExecutedCalls(steps, 0, if run.error.Some? then run.done + 1 else run.done)
                                     + OwedCalls(steps, f)
            && (run.error.Some? && !run.aborted ==>
                  OwedCalls(steps, f) == UndoneCalls(Reverse(steps[..run.done]), run.results))
            && logged.results == run.results && logged.done == run.done && logged.aborted == run.aborted
  {
    var f, g := MirroredStart(steps, all, w);
    MirroredFinish(steps, all, f, g);
    if f.error.Some? && f.error.value.Because? {
      var undone := Reverse(steps[..f.done]);
      assert undone[..|undone|] == undone;
    }
  }

  /** `compensate` itself does not reverse: it undoes the steps in the order it is given, all of
      them unless one rejects without a reason. */
  lemma {:induction false} CompensateKeepsGivenOrder<W(!new), R(!new)>(
    steps: seq<SagaStep<W, R>>, all: seq<SagaStep<Logged<W, R>, R>>, w: W, rs: map<string, R>)
    requires MirrorsAll(steps, all)
    ensures UndoAll(all, Logged(w, []), rs).world.calls == UndoneCalls(steps[..UndosMade(steps, w, rs)], rs)
    ensures !UndoAll(steps, w, rs).escaped ==> UndosMade(steps, w, rs) == |steps|
  {
    MirroredUndo(steps, all, Logged(w, []), rs);
  }

  /** What step `i` itself returned. */
  function OwnResult<W, R>(steps: seq<SagaStep<W, R>>, w: W, i: nat): Option<R>
    requires i < |steps|
  {
    Lookup(Attempt(steps, w, i).results, steps[i].name)
  }

  lemma {:induction false} AttemptKeepsOthers<W, R>(step: SagaStep<W, R>, w: W, results: map<string, R>, name: string)
    requires name != step.name
    ensures Lookup(ExecStep(step, w, results).results, name) == Lookup(results, name)
  {}

  lemma {:induction false} RecordedUntil<W, R>(steps: seq<SagaStep<W, R>>, w: W, i: nat, j: nat)
    requires i < j <= |steps|
    requires forall m :: i < m < j ==> steps[m].name != steps[i].name
    ensures Lookup(Before(steps, w, j).1, steps[i].name) == OwnResult(steps, w, i)
  {
    if j > i + 1 {
      RecordedUntil(steps, w, i, j - 1);
      var b := Before(steps, w, j - 1);
      AttemptKeepsOthers(steps[j - 1], b.0, b.1, steps[i].name);
    }
  }

  /** With distinct names every compensation receives exactly what its own execute returned. */
  lemma {:induction false} OwnResultsReachUndo<W(!new), R(!new)>(steps: seq<SagaStep<W, R>>, w: W, i: nat)
    requires Distinct(NamesOf(steps)) && i < RunSteps(steps, w).done
    ensures Lookup(RunSteps(steps, w).results, steps[i].name) == OwnResult(steps, w, i)
    ensures OwnResult(steps, w, i).Some?
  {
    ForwardMeaning(steps, w, 0);
    var k := RunSteps(steps, w).done;
    RecordedUntil(steps, w, i, k);
    if k < |steps| {
      var b := Before(steps, w, k);
      AttemptKeepsOthers(steps[k], b.0, b.1, steps[i].name);
    }
    assert Attempt(steps, w, i).error.None?;
  }

  // ----- Semantic atomicity -----

  ghost predicate FailsClean<W(!new), R(!new)>(step: SagaStep<W, R>) {
    forall w: W, rs: map<string, R> :: ExecStep(step, w, rs).error.Some? ==> ExecStep(step, w, rs).world == w
  }

  /** Given what this execute returned, the compensation restores the state before it. */
  ghost predicate UndoesItself<W(!new), R(!new)>(step: SagaStep<W, R>) {
    forall w: W, rs: map<string, R>, rs': map<string, R> ::
      ExecStep(step, w, rs).error.None? &&
      Lookup(rs', step.name) == Lookup(ExecStep(step, w, rs).results, step.name) ==>
        var u := UndoStep(step, ExecStep(step, w, rs).world, rs'); u.world == w && !u.escaped
  }

  /** When the compensations run, each completed step's own result is what is recorded. */
  ghost predicate ResultsKept<W(!new), R(!new)>(steps: seq<SagaStep<W, R>>, w: W) {
    forall i :: 0 <= i < RunSteps(steps, w).done ==>
                  Lookup(RunSteps(steps, w).results, steps[i].name) == OwnResult(steps, w, i)
  }

  lemma {:induction false} Unwind<W(!new), R(!new)>(steps: seq<SagaStep<W, R>>, w: W, j: nat)
    requires j <= RunSteps(steps, w).done && ResultsKept(steps, w)
    requires forall step :: step in steps ==> UndoesItself(step)
    ensures var u := UndoAll(Reverse(steps[..j]), Before(steps, w, j).0, RunSteps(steps, w).results);
            u.world == w && !u.escaped
  {
    if j > 0 {
      var undone := Reverse(steps[..j]);
      assert undone[0] == steps[j - 1] && undone[1..] == Reverse(steps[..j - 1]);
      assert steps[j - 1] in steps;
      CompletedIsPrefixBeforeFirstFailure(steps, w);
      assert Attempt(steps, w, j - 1).error.None?;
      Unwind(steps, w, j - 1);
    }
  }

  /** A run in which a step fails with an error ends in exactly the initial state, one in which a
      step rejects without a reason in the state that step started from, and one in which none
      fails in the composition of all steps. */
  lemma {:induction false} SemanticAtomicity<W(!new), R(!new)>(steps: seq<SagaStep<W, R>>, w: W)
    requires ResultsKept(steps, w)
    requires forall step :: step in steps ==> FailsClean(step) && UndoesItself(step)
    ensures var run := RunSteps(steps, w);
            && run.world == (match run.error
                             case None => Before(steps, w, |steps|).0
                             case Some(Because(_)) => w
                             case Some(NoReason) => Before(steps, w, run.done).0)
            && (run.aborted <==> run.error == Some(NoReason))
  {
    ForwardMeaning(steps, w, 0);
    var k := RunSteps(steps, w).done;
    if k < |steps| {
      assert steps[k] in steps;
      Unwind(steps, w, k);
    }
  }

  lemma {:induction false} DistinctNamesKeepResults<W(!new), R(!new)>(steps: seq<SagaStep<W, R>>, w: W)
    requires Distinct(NamesOf(steps))
    ensures ResultsKept(steps, w)
  {
    forall i | 0 <= i < RunSteps(steps, w).done
      ensures Lookup(RunSteps(steps, w).results, steps[i].name) == OwnResult(steps, w, i)
    {
      OwnResultsReachUndo(steps, w, i);
    }
  }

  /** A step that adds `n` and returns it, undone by subtracting what it is given. */
  function Adding(name: string, n: int): SagaStep<int, int> {
    SagaStep(name, 1.0, (w: int, rs: map<string, int>) => (w + n, Done(n)),
             (w: int, rs: map<string, int>, r: Option<int>) => (if r.Some? then w - r.value else w, None), None, None)
  }

  function Rejecting(reason: Reason): SagaStep<int, int> {
    SagaStep("reject", 2.0, (w: int, rs: map<string, int>) => (w, Threw(reason)),
             (w: int, rs: map<string, int>, r: Option<int>) => (w, None), None, None)
  }

  /** Adds nothing, records 2, and then fails in its completion hook. */
  function Spoiling(name: string): SagaStep<int, int> {
    SagaStep(name, 2.0, (w: int, rs: map<string, int>) => (w, Done(2)),
             (w: int, rs: map<string, int>, r: Option<int>) => (w, None),
             Some((w: int, rs: map<string, int>, r: int) => (w, Some(Because("hook failed")))), None)
  }

  /** Every run of steps with these names that undo themselves and fail with an error is rolled back. */
  ghost predicate AllRollBack(names: seq<string>) {
    forall steps: seq<SagaStep<int, int>>, w: int ::
      NamesOf(steps) == names && Reversible(steps) && FailsWithError(steps, w) ==> RunSteps(steps, w).world == w
  }

  ghost predicate Reversible<W(!new), R(!new)>(steps: seq<SagaStep<W, R>>) {
    forall step :: step in steps ==> FailsClean(step) && UndoesItself(step)
  }

  predicate FailsWithError<W, R>(steps: seq<SagaStep<W, R>>, w: W) {
    RunSteps(steps, w).error.Some? && RunSteps(steps, w).error.value.Because?
  }

  function Neutral(name: string): SagaStep<int, int> {
    SagaStep(name, 1.0, (w: int, rs: map<string, int>) => (w, Done(0)),
             (w: int, rs: map<string, int>, r: Option<int>) => (w, None), None, None)
  }

  /** Step `i` adds 1, step `j` spoils the result of the name, the others do nothing. */
  function Clash(names: seq<string>, i: nat, j: nat): (steps: seq<SagaStep<int, int>>)
    requires i < j < |names|
    ensures NamesOf(steps) == names
  {
    seq(|names|, k requires 0 <= k < |names| =>
      if k == j then Spoiling(names[k]) else if k == i then Adding(names[k], 1) else Neutral(names[k]))
  }

  lemma {:induction false} ClashIsReversible(names: seq<string>, i: nat, j: nat)
    requires i < j < |names|
    ensures Reversible(Clash(names, i, j))
  {
    forall k | 0 <= k < |names|
      ensures FailsClean(Clash(names, i, j)[k]) && UndoesItself(Clash(names, i, j)[k])
    {}
  }

  lemma {:induction false} ClashForward(names: seq<string>, i: nat, j: nat, k: nat, w: int, rs: map<string, int>)
    requires i < j < |names| && k <= j
    ensures var f := RunFrom(Clash(names, i, j), k, w, rs);
            && f.done == j && f.error == Some(Because("hook failed")) && f.world == w + (if k <= i then 1 else 0)
            && Lookup(f.results, names[j]) == Some(2)
    decreases j - k
  {
    var steps := Clash(names, i, j);
    var s := ExecStep(steps[k], w, rs);
    if k < j {
      ClashForward(names, i, j, k + 1, s.world, s.results);
    }
  }

  lemma {:induction false} ClashUndoOne(names: seq<string>, i: nat, j: nat, k: nat, w: int, rs: map<string, int>)
    requires i < j < |names| && k < j && Lookup(rs, names[i]) == Some(2)
    ensures var u := UndoStep(Clash(names, i, j)[k], w, rs);
            !u.escaped && u.world == if k == i then w - 2 else w
  {}

  lemma {:induction false} ClashUndo(names: seq<string>, i: nat, j: nat, k: nat, w: int, rs: map<string, int>)
    requires i < j < |names| && k <= j && Lookup(rs, names[i]) == Some(2)
    ensures UndoAll(Reverse(Clash(names, i, j)[..k]), w, rs).world == w - if k > i then 2 else 0
  {
    if k > 0 {
      var steps := Clash(names, i, j);
      var undone := Reverse(steps[..k]);
      assert undone[0] == steps[k - 1] && undone[1..] == Reverse(steps[..k - 1]);
      ClashUndoOne(names, i, j, k - 1, w, rs);
      ClashUndo(names, i, j, k - 1, UndoStep(steps[k - 1], w, rs).world, rs);
    }
  }

  /** With a shared name rollback fails though every step undoes itself: the later result is
      handed to the earlier undo. */
  lemma {:induction false} SharedNameBreaksRollback(names: seq<string>, i: nat, j: nat, w: int)
    requires i < j < |names| && names[i] == names[j]
    ensures var steps := Clash(names, i, j);
            && NamesOf(steps) == names && Reversible(steps) && FailsWithError(steps, w)
            && RunSteps(steps, w).world == w - 1
  {
    ClashIsReversible(names, i, j);
    ClashForward(names, i, j, 0, w, map[]);
    ClashUndo(names, i, j, j, w + 1, RunFrom(Clash(names, i, j), 0, w, map[]).results);
  }

  /** Steps with these names that undo themselves are rolled back in every run that fails with an
      error, if and only if no two of the names are equal. */
  lemma {:induction false} RollbackIffDistinct(names: seq<string>)
    ensures AllRollBack(names) <==> Distinct(names)
  {
    if Distinct(names) {
      forall steps: seq<SagaStep<int, int>>, w: int |
        NamesOf(steps) == names && Reversible(steps) && FailsWithError(steps, w)
        ensures RunSteps(steps, w).world == w
      {
        DistinctNamesKeepResults(steps, w);
        SemanticAtomicity(steps, w);
      }
    } else {
      var i, j :| 0 <= i < j < |names| && names[i] == names[j];
      SharedNameBreaksRollback(names, i, j, 0);
      assert RunSteps(Clash(names, i, j), 0).world != 0;
    }
  }
}
