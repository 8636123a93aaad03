/**
 The same run cut into the pieces between which other work can happen: one step's execute, or one
 step's compensation, at a time.  Taken to the end alone it is the run of `SagaSpec`; sagas that
 share a state are interleavings of such pieces.
 */
module SagaMachine {
  import opened Wrappers
  import opened SagaSpec

  datatype Phase = Forward | Undoing | Ended

  /** Forward: `next` is the step to execute.  Undoing: the steps before `next` are still to undo. */
  datatype Local<R> = Local(phase: Phase, next: nat, results: map<string, R>, error: Option<Reason>)

  function Start<R>(): Local<R> {
    Local(Forward, 0, map[], None)
  }

  function Advance<W, R>(steps: seq<SagaStep<W, R>>, l: Local<R>, w: W): (r: (Local<R>, W))
    requires l.next <= |steps|
    ensures r.0.next <= |steps|
  {
    match l.phase
    case Forward =>
      if l.next == |steps| then (l.(phase := Ended), w)
      else
        var s := ExecStep(steps[l.next], w, l.results);
        if s.error == Some(NoReason) then (Local(Ended, l.next, s.results, s.error), s.world)
        else if s.error.Some? then (Local(Undoing, l.next, s.results, s.error), s.world)
        else (Local(Forward, l.next + 1, s.results, None), s.world)
    case Undoing =>
      if l.next == 0 then (l.(phase := Ended), w)
      else
        var u := UndoStep(steps[l.next - 1], w, l.results);
        (l.(phase := if u.escaped then Ended else Undoing, next := l.next - 1), u.world)
    case Ended => (l, w)
  }

  function Iterate<W, R>(steps: seq<SagaStep<W, R>>, l: Local<R>, w: W, n: nat): (Local<R>, W)
    requires l.next <= |steps|
    decreases n
  {
    if n == 0 then (l, w)
    else
      var (l', w') := Advance(steps, l, w);
      Iterate(steps, l', w', n - 1)
  }

  lemma {:induction false} IterateEnded<W, R>(steps: seq<SagaStep<W, R>>, l: Local<R>, w: W, n: nat)
    requires l.next <= |steps| && l.phase.Ended?
    ensures Iterate(steps, l, w, n) == (l, w)
  {
    if n > 0 {
      IterateEnded(steps, l, w, n - 1);
    }
  }

  lemma {:induction false} IterateUndo<W, R>(steps: seq<SagaStep<W, R>>, l: Local<R>, w: W, n: nat)
    requires l.next <= |steps| && l.phase.Undoing? && n > l.next
    ensures var (l', w') := Iterate(steps, l, w, n);
            && l'.phase.Ended? && l'.results == l.results && l'.error == l.error
            && w' == UndoAll(Reverse(steps[..l.next]), w, l.results).world
    decreases n
  {
    var (l', w') := Advance(steps, l, w);
    if l.next > 0 {
      var undone := Reverse(steps[..l.next]);
      assert undone[0] == steps[l.next - 1] && undone[1..] == Reverse(steps[..l.next - 1]);
    }
    if l'.phase.Ended? {
      IterateEnded(steps, l', w', n - 1);
    } else {
      IterateUndo(steps, l', w', n - 1);
    }
  }

  lemma {:induction false} IterateForward<W, R>(steps: seq<SagaStep<W, R>>, l: Local<R>, w: W, n: nat)
    requires l.next <= |steps| && l.phase.Forward? && l.error.None?
    requires n >= (|steps| - l.next) + |steps| + 2
    ensures var f := RunFrom(steps, l.next, w, l.results);
            var (l', w') := Iterate(steps, l, w, n);
            l'.phase.Ended? && l'.results == f.results && l'.error == f.error && w' == Recover(steps, f).world
    decreases |steps| - l.next
  {
    var (l', w') := Advance(steps, l, w);
    assert Iterate(steps, l, w, n) == Iterate(steps, l', w', n - 1);
    if l'.phase.Ended? {
      IterateEnded(steps, l', w', n - 1);
    } else if l'.phase.Undoing? {
      IterateUndo(steps, l', w', n - 1);
    } else {
      IterateForward(steps, l', w', n - 1);
    }
  }

  /** A saga left alone, advanced piece by piece, ends and has done exactly its run. */
  lemma {:induction false} PiecesMakeTheRun<W, R>(steps: seq<SagaStep<W, R>>, w: W, n: nat)
    requires n >= 2 * |steps| + 2
    ensures var run := RunSteps(steps, w);
            var (l, w') := Iterate(steps, Start(), w, n);
            l.phase.Ended? && l.results == run.results && l.error == run.error && w' == run.world
  {
    IterateForward(steps, Start(), w, n);
  }

  /** An upper bound on the pieces a saga of `n` steps has left. */
  function PiecesLeft<R>(n: nat, l: Local<R>): nat {
    match l.phase
    case Forward => (if l.next <= n then n - l.next else 0) + n + 2
    case Undoing => l.next + 1
    case Ended => 0
  }

  /** Every piece brings a saga nearer to its end, whatever happened to the state in between. */
  lemma {:induction false} PiecesRunOut<W, R>(steps: seq<SagaStep<W, R>>, l: Local<R>, w: W)
    requires l.next <= |steps|
    ensures PiecesLeft(|steps|, Advance(steps, l, w).0) <= PiecesLeft(|steps|, l)
    ensures !l.phase.Ended? ==> PiecesLeft(|steps|, Advance(steps, l, w).0) < PiecesLeft(|steps|, l)
  {}
}
