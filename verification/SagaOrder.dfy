/** `sortSteps`: a stable sort by `order`, as `Array.prototype.sort` promises. */
module SagaOrder {
  import opened SagaSpec

  type Steps<!W, !R> = seq<SagaStep<W, R>>

  /** Puts a step in front of the steps whose order is not smaller. */
  function Insert<W, R>(s: SagaStep<W, R>, sorted: Steps<W, R>): Steps<W, R> {
    if sorted == [] || s.order <= sorted[0].order then [s] + sorted
    else [sorted[0]] + Insert(s, sorted[1..])
  }

  function SortSteps<W, R>(steps: Steps<W, R>): Steps<W, R> {
    if steps == [] then [] else Insert(steps[0], SortSteps(steps[1..]))
  }

  ghost predicate Ordered<W(!new), R(!new)>(steps: Steps<W, R>) {
    forall i, j :: 0 <= i < j < |steps| ==> steps[i].order <= steps[j].order
  }

  /** The steps of one order, in the order they appear. */
  function OfOrder<W, R>(steps: Steps<W, R>, order: real): Steps<W, R> {
    if steps == [] then []
    else (if steps[0].order == order then [steps[0]] else []) + OfOrder(steps[1..], order)
  }

  lemma {:induction false} InsertPermutes<W(!new), R(!new)>(s: SagaStep<W, R>, sorted: Steps<W, R>)
    ensures multiset(Insert(s, sorted)) == multiset(sorted) + multiset{s}
  {
    if sorted != [] {
      InsertPermutes(s, sorted[1..]);
      assert sorted == [sorted[0]] + sorted[1..];
    }
  }

  lemma {:induction false} InsertKeepsOrdered<W(!new), R(!new)>(s: SagaStep<W, R>, sorted: Steps<W, R>)
    requires Ordered(sorted)
    ensures Ordered(Insert(s, sorted))
    ensures Insert(s, sorted) != []
    ensures Insert(s, sorted)[0].order == s.order || (sorted != [] && Insert(s, sorted)[0].order == sorted[0].order)
  {
    if sorted != [] && s.order > sorted[0].order {
      var t := Insert(s, sorted[1..]);
      InsertKeepsOrdered(s, sorted[1..]);
      assert forall k :: 0 <= k < |t| ==> t[0].order <= t[k].order;
      assert sorted[0].order <= t[0].order;
    }
  }

  lemma {:induction false} OfOrderCons<W, R>(head: SagaStep<W, R>, rest: Steps<W, R>, order: real)
    ensures OfOrder([head] + rest, order) == (if head.order == order then [head] else []) + OfOrder(rest, order)
  {
    assert ([head] + rest)[1..] == rest;
  }

  lemma {:induction false} InsertKeepsTies<W(!new), R(!new)>(s: SagaStep<W, R>, sorted: Steps<W, R>, order: real)
    ensures OfOrder(Insert(s, sorted), order) == (if s.order == order then [s] else []) + OfOrder(sorted, order)
  {
    if sorted == [] || s.order <= sorted[0].order {
      OfOrderCons(s, sorted, order);
    } else {
      InsertKeepsTies(s, sorted[1..], order);
      OfOrderCons(sorted[0], Insert(s, sorted[1..]), order);
    }
  }

  lemma {:induction false} OfOrderHead<W, R>(steps: Steps<W, R>, order: real)
    ensures forall k :: 0 <= k < |OfOrder(steps, order)| ==>
                          OfOrder(steps, order)[k].order == order && OfOrder(steps, order)[k] in steps
  {
    if steps != [] {
      OfOrderHead(steps[1..], order);
    }
  }

  /** Ordered, a permutation, and ties keep their order: within each order the sequence is the same. */
  lemma {:induction false} SortStepsIsStable<W(!new), R(!new)>(steps: Steps<W, R>, order: real)
    ensures Ordered(SortSteps(steps))
    ensures multiset(SortSteps(steps)) == multiset(steps)
    ensures OfOrder(SortSteps(steps), order) == OfOrder(steps, order)
  {
    if steps != [] {
      SortStepsIsStable(steps[1..], order);
      InsertPermutes(steps[0], SortSteps(steps[1..]));
      InsertKeepsOrdered(steps[0], SortSteps(steps[1..]));
      InsertKeepsTies(steps[0], SortSteps(steps[1..]), order);
      assert steps == [steps[0]] + steps[1..];
    }
  }

  /** An ordered list starts with the first of its least order. */
  lemma {:induction false} OrderedHead<W(!new), R(!new)>(t: Steps<W, R>, u: Steps<W, R>)
    requires Ordered(t) && Ordered(u)
    requires forall order :: OfOrder(t, order) == OfOrder(u, order)
    requires t != [] && u != []
    ensures t[0] == u[0]
  {
    assert OfOrder(t, t[0].order)[0] == t[0];
    assert OfOrder(u, u[0].order)[0] == u[0];
    OfOrderHead(u, t[0].order);
    OfOrderHead(t, u[0].order);
    assert OfOrder(u, t[0].order)[0] in u;
    assert OfOrder(t, u[0].order)[0] in t;
  }

  lemma {:induction false} NoTiesNoSteps<W(!new), R(!new)>(t: Steps<W, R>, u: Steps<W, R>)
    requires forall order :: OfOrder(t, order) == OfOrder(u, order)
    ensures t != [] ==> u != []
  {
    if t != [] {
      assert OfOrder(t, t[0].order)[0] == t[0];
    }
  }

  /** There is only one stable sort: any ordered list with the same ties is the same list. */
  lemma {:induction false} StableSortIsUnique<W(!new), R(!new)>(t: Steps<W, R>, u: Steps<W, R>)
    requires Ordered(t) && Ordered(u)
    requires forall order :: OfOrder(t, order) == OfOrder(u, order)
    ensures t == u
  {
    if t == [] || u == [] {
      NoTiesNoSteps(t, u);
      NoTiesNoSteps(u, t);
    } else {
      OrderedHead(t, u);
      forall order
        ensures OfOrder(t[1..], order) == OfOrder(u[1..], order)
      {
        var head := if t[0].order == order then [t[0]] else [];
        assert OfOrder(t, order) == head + OfOrder(t[1..], order);
        assert OfOrder(u, order) == head + OfOrder(u[1..], order);
        assert OfOrder(t, order)[|head|..] == OfOrder(t[1..], order);
        assert OfOrder(u, order)[|head|..] == OfOrder(u[1..], order);
      }
      StableSortIsUnique(t[1..], u[1..]);
      assert t == [t[0]] + t[1..] && u == [u[0]] + u[1..];
    }
  }

  ghost predicate DistinctOrders<W(!new), R(!new)>(steps: Steps<W, R>) {
    forall i, j :: 0 <= i < j < |steps| ==> steps[i].order != steps[j].order
  }

  lemma {:induction false} OfOrderOfDistinct<W(!new), R(!new)>(steps: Steps<W, R>, k: nat)
    requires DistinctOrders(steps) && k < |steps|
    ensures OfOrder(steps, steps[k].order) == [steps[k]]
  {
    var order := steps[k].order;
    if k == 0 {
      OfOrderHead(steps[1..], order);
      assert forall x :: x in steps[1..] ==> x.order != order;
      var rest := OfOrder(steps[1..], order);
      assert |rest| > 0 ==> rest[0] in steps[1..] && rest[0].order == order;
    } else {
      OfOrderOfDistinct(steps[1..], k - 1);
    }
  }

  lemma {:induction false} OfOrderOfPermuted<W(!new), R(!new)>(a: Steps<W, R>, b: Steps<W, R>, order: real)
    requires multiset(a) == multiset(b)
    requires DistinctOrders(a) && DistinctOrders(b)
    requires OfOrder(a, order) != []
    ensures OfOrder(a, order) == OfOrder(b, order)
  {
    OfOrderHead(a, order);
    var x := OfOrder(a, order)[0];
    assert x in multiset(a) && x in multiset(b);
    var i :| 0 <= i < |a| && a[i] == x;
    var j :| 0 <= j < |b| && b[j] == x;
    OfOrderOfDistinct(a, i);
    OfOrderOfDistinct(b, j);
  }

  /** With distinct orders the whole run does not depend on how the steps were supplied. */
  lemma {:induction false} SupplyOrderIsIrrelevant<W(!new), R(!new)>(a: Steps<W, R>, b: Steps<W, R>, w: W)
    requires multiset(a) == multiset(b)
    requires DistinctOrders(a) && DistinctOrders(b)
    ensures SortSteps(a) == SortSteps(b)
    ensures RunSteps(SortSteps(a), w) == RunSteps(SortSteps(b), w)
  {
    forall order
      ensures OfOrder(SortSteps(a), order) == OfOrder(SortSteps(b), order)
    {
      SortStepsIsStable(a, order);
      SortStepsIsStable(b, order);
      if OfOrder(a, order) != [] {
        OfOrderOfPermuted(a, b, order);
      } else if OfOrder(b, order) != [] {
        OfOrderOfPermuted(b, a, order);
      }
    }
    SortStepsIsStable(a, 0.0);
    SortStepsIsStable(b, 0.0);
    StableSortIsUnique(SortSteps(a), SortSteps(b));
  }

  /** Steps declared in order, as the shipped sagas declare theirs, are run as declared. */
  lemma {:induction false} OrderedIsSorted<W(!new), R(!new)>(steps: Steps<W, R>)
    requires Ordered(steps)
    ensures SortSteps(steps) == steps
  {
    if steps != [] {
      OrderedIsSorted(steps[1..]);
    }
  }
}
