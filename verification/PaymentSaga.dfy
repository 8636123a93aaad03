/**
 The subscription payment saga.  Its helpers talk to the outside, so the state of a run is the
 trace of the calls made, each with what it answered; any call may fail.
 */
module PaymentSaga {
  import opened Wrappers
  import opened SagaSpec
  import opened SagaOrder

  datatype Call =
    | ValidateMethod
    | CreateSubscription(created: Option<Id>)
    | ProcessPayment(subscription: Id, paid: Option<Id>)
    | GenerateInvoice(subscription: Id, payment: Id, issued: Option<Id>)
    | ActivateSubscription(id: Id, ok: bool)
    | DeleteSubscription(id: Id, ok: bool)
    | RefundPayment(id: Id, ok: bool)
    | CancelInvoice(id: Id, ok: bool)
    | DeactivateSubscription(id: Id, ok: bool)

  type Trace = seq<Call>

  /** What each call of one run answers; None and false are failures. */
  datatype Fates = Fates(methodValid: bool, subscription: Option<Id>, payment: Option<Id>, invoice: Option<Id>,
                         activates: bool, deletes: bool, refunds: bool, cancels: bool, deactivates: bool)

  datatype Res =
    | Validated
    | Subscribed(subscription: Id)
    | Paid(payment: Id)
    | Invoiced(invoice: Id)
    | Activated(subscription: Id)

  type Results = map<string, Res>

  function SubscriptionOf(rs: Results): Option<Id> {
    if "CreateSubscription" in rs && rs["CreateSubscription"].Subscribed?
    then Some(rs["CreateSubscription"].subscription) else None
  }

  function PaymentOf(rs: Results): Option<Id> {
    if "ProcessPayment" in rs && rs["ProcessPayment"].Paid? then Some(rs["ProcessPayment"].payment) else None
  }

  function InvoiceOf(rs: Results): Option<Id> {
    if "GenerateInvoice" in rs && rs["GenerateInvoice"].Invoiced? then Some(rs["GenerateInvoice"].invoice) else None
  }

  // ----- The steps -----

  function ExecValidate(f: Fates, t: Trace): (Trace, Outcome<Res>) {
    (t + [ValidateMethod], if f.methodValid then Done(Validated) else Threw(Because("invalid or expired")))
  }

  function ExecSubscribe(f: Fates, t: Trace): (Trace, Outcome<Res>) {
    (t + [CreateSubscription(f.subscription)],
     if f.subscription.Some? then Done(Subscribed(f.subscription.value)) else Threw(Because("creation failed")))
  }

  function ExecPay(f: Fates, t: Trace, rs: Results): (Trace, Outcome<Res>) {
    match SubscriptionOf(rs)
    case None => (t, Threw(Because("Subscription ID not found from previous step")))
    case Some(s) => (t + [ProcessPayment(s, f.payment)],
                     if f.payment.Some? then Done(Paid(f.payment.value))
                     else Threw(Because("Payment processing failed")))
  }

  function ExecInvoice(f: Fates, t: Trace, rs: Results): (Trace, Outcome<Res>) {
    match (SubscriptionOf(rs), PaymentOf(rs))
    case (Some(s), Some(p)) => (t + [GenerateInvoice(s, p, f.invoice)],
                                if f.invoice.Some? then Done(Invoiced(f.invoice.value))
                                else Threw(Because("invoice failed")))
    case _ => (t, Threw(Because("Required data not found from previous steps")))
  }

  function ExecActivate(f: Fates, t: Trace, rs: Results): (Trace, Outcome<Res>) {
    match SubscriptionOf(rs)
    case None => (t, Threw(Because("Subscription ID not found from previous step")))
    case Some(s) => (t + [ActivateSubscription(s, f.activates)],
                     if f.activates then Done(Activated(s)) else Threw(Because("activation failed")))
  }

  /** Compensations catch what their call throws. */
  function Undo(f: Fates, t: Trace, r: Option<Res>): Trace {
    match r
    case Some(Subscribed(s)) => t + [DeleteSubscription(s, f.deletes)]
    case Some(Paid(p)) => t + [RefundPayment(p, f.refunds)]
    case Some(Invoiced(i)) => t + [CancelInvoice(i, f.cancels)]
    case Some(Activated(s)) => t + [DeactivateSubscription(s, f.deactivates)]
    case _ => t
  }

  function PayStep(f: Fates, k: nat): SagaStep<Trace, Res>
    requires k < 5
  {
    var undo := (t: Trace, rs: Results, r: Option<Res>) => (Undo(f, t, r), None);
    if k == 0 then
      SagaStep("ValidatePaymentMethod", 1.0, (t: Trace, rs: Results) => ExecValidate(f, t),
               (t: Trace, rs: Results, r: Option<Res>) => (t, None), None, None)
    else if k == 1 then
      SagaStep("CreateSubscription", 2.0, (t: Trace, rs: Results) => ExecSubscribe(f, t), undo, None, None)
    else if k == 2 then
      SagaStep("ProcessPayment", 3.0, (t: Trace, rs: Results) => ExecPay(f, t, rs), undo, None, None)
    else if k == 3 then
      SagaStep("GenerateInvoice", 4.0, (t: Trace, rs: Results) => ExecInvoice(f, t, rs), undo, None, None)
    else
      SagaStep("ActivateSubscription", 5.0, (t: Trace, rs: Results) => ExecActivate(f, t, rs), undo, None, None)
  }

  function PaySteps(f: Fates): seq<SagaStep<Trace, Res>> {
    seq(5, k requires 0 <= k < 5 => PayStep(f, k))
  }

  lemma {:induction false} PayStepsAreSorted(f: Fates)
    ensures SortSteps(PaySteps(f)) == PaySteps(f)
  {
    OrderedIsSorted(PaySteps(f));
  }

  // ----- What is reached, and what is undone -----

  /** How many steps complete. */
  function Reached(f: Fates): nat {
    if !f.methodValid then 0
    else if f.subscription.None? then 1
    else if f.payment.None? then 2
    else if f.invoice.None? then 3
    else if !f.activates then 4
    else 5
  }

  /** The call step `k` makes when it is reached. */
  function ForwardCall(f: Fates, k: nat): Call
    requires k <= Reached(f) && k < 5
  {
    if k == 0 then ValidateMethod
    else if k == 1 then CreateSubscription(f.subscription)
    else if k == 2 then ProcessPayment(f.subscription.value, f.payment)
    else if k == 3 then GenerateInvoice(f.subscription.value, f.payment.value, f.invoice)
    else ActivateSubscription(f.subscription.value, f.activates)
  }

  function ForwardCalls(f: Fates, k: nat): Trace
    decreases 5 - k
  {
    if k >= 5 || k > Reached(f) then [] else [ForwardCall(f, k)] + ForwardCalls(f, k + 1)
  }

  /** The undos of the first `k` steps, last first: cancel, refund, delete. */
  function UndoCalls(f: Fates, k: nat): Trace
    requires k <= Reached(f) && k < 5
    decreases k
  {
    if k == 4 then [CancelInvoice(f.invoice.value, f.cancels)] + UndoCalls(f, 3)
    else if k == 3 then [RefundPayment(f.payment.value, f.refunds)] + UndoCalls(f, 2)
    else if k == 2 then [DeleteSubscription(f.subscription.value, f.deletes)]
    else []
  }

  /** What the first `k` steps leave recorded. */
  ghost predicate Recorded(f: Fates, k: nat, rs: Results) {
    && SubscriptionOf(rs) == (if k >= 2 then f.subscription else None)
    && PaymentOf(rs) == (if k >= 3 then f.payment else None)
    && InvoiceOf(rs) == (if k >= 4 then f.invoice else None)
    && ("ValidatePaymentMethod" in rs ==> rs["ValidatePaymentMethod"].Validated?)
  }

  lemma {:induction false} StepDoes(f: Fates, k: nat, t: Trace, rs: Results)
    requires k <= Reached(f) && k < 5 && Recorded(f, k, rs)
    ensures var s := ExecStep(PaySteps(f)[k], t, rs);
            && s.world == t + [ForwardCall(f, k)]
            && (s.error.Some? <==> k == Reached(f)) && (s.error.Some? ==> s.error.value.Because?)
            && Recorded(f, if s.error.Some? then k else k + 1, s.results)
  {
    assert PaySteps(f)[k] == PayStep(f, k);
    if k == 0 {
    } else if k == 1 {
    } else if k == 2 {
    } else if k == 3 {
    } else {
    }
  }

  lemma {:induction false} UndoDoes(f: Fates, k: nat, t: Trace, rs: Results)
    requires 0 < k <= 4 && k <= Reached(f) && Recorded(f, Reached(f), rs)
    ensures UndoStep(PaySteps(f)[k - 1], t, rs).world == if k == 1 then t else t + [UndoCalls(f, k)[0]]
  {
    assert PaySteps(f)[k - 1] == PayStep(f, k - 1);
    if k == 1 {
    } else if k == 2 {
    } else if k == 3 {
    } else {
    }
  }

  lemma {:induction false} PayForward(f: Fates, k: nat, t: Trace, rs: Results)
    requires k <= Reached(f) && Recorded(f, k, rs)
    ensures var r := RunFrom(PaySteps(f), k, t, rs);
            && r.done == Reached(f) && Recorded(f, Reached(f), r.results) && r.world == t + ForwardCalls(f, k)
            && (r.error.Some? ==> r.error.value.Because?)
    decreases 5 - k
  {
    if k < 5 {
      StepDoes(f, k, t, rs);
      var s := ExecStep(PaySteps(f)[k], t, rs);
      assert t + [ForwardCall(f, k)] + ForwardCalls(f, k + 1) == t + ForwardCalls(f, k);
      if k < Reached(f) {
        PayForward(f, k + 1, s.world, s.results);
      }
    }
  }

  lemma {:induction false} PayUndo(f: Fates, k: nat, t: Trace, rs: Results)
    requires k <= Reached(f) && k < 5 && Recorded(f, Reached(f), rs)
    ensures UndoAll(Reverse(PaySteps(f)[..k]), t, rs).world == t + UndoCalls(f, k)
    decreases k
  {
    var steps := PaySteps(f);
    if k > 0 {
      var undone := Reverse(steps[..k]);
      assert undone[0] == steps[k - 1] && undone[1..] == Reverse(steps[..k - 1]);
      UndoDoes(f, k, t, rs);
      var t' := UndoStep(undone[0], t, rs).world;
      PayUndo(f, k - 1, t', rs);
      assert t' + UndoCalls(f, k - 1) == t + UndoCalls(f, k);
    }
  }

  /** One undo for each thing recorded: cancel the invoice, refund the payment, delete the
      subscription. */
  function UndosOwed(f: Fates, rs: Results): Trace {
    (match InvoiceOf(rs) case Some(i) => [CancelInvoice(i, f.cancels)] case None => []) +
    (match PaymentOf(rs) case Some(p) => [RefundPayment(p, f.refunds)] case None => []) +
    (match SubscriptionOf(rs) case Some(s) => [DeleteSubscription(s, f.deletes)] case None => [])
  }

  lemma {:induction false} UndoCallsAreOwed(f: Fates, rs: Results)
    requires Reached(f) < 5 && Recorded(f, Reached(f), rs)
    ensures UndoCalls(f, Reached(f)) == UndosOwed(f, rs)
  {}

  /** The forward part of a run, and what undoing it adds. */
  lemma {:induction false} PayStart(f: Fates) returns (r: ForwardRun<Trace, Res>)
    ensures r == RunFrom(PaySteps(f), 0, [], map[]) && r.done == Reached(f)
    ensures r.world == ForwardCalls(f, 0) && (r.error.Some? ==> r.error.value.Because?)
    ensures r.done < 5 ==>
              UndoAll(Reverse(PaySteps(f)[..r.done]), r.world, r.results).world == r.world + UndoCalls(f, r.done) &&
              UndoCalls(f, r.done) == UndosOwed(f, r.results)
  {
    r := RunFrom(PaySteps(f), 0, [], map[]);
    PayForward(f, 0, [], map[]);
    if r.done < 5 {
      PayUndo(f, r.done, r.world, r.results);
      UndoCallsAreOwed(f, r.results);
    }
  }

  /** In a run in which a step fails, each invoice, payment and subscription recorded is passed
      exactly once to cancel, refund and delete, in that order and whatever the earlier undos
      answered; in a run in which none fails nothing is undone. */
  lemma {:induction false} PaymentCompensation(f: Fates)
    ensures var run := RunSteps(PaySteps(f), []);
            && run.done == Reached(f) && (run.error.Some? <==> Reached(f) < 5)
            && run.world == ForwardCalls(f, 0) + if run.error.None? then [] else UndosOwed(f, run.results)
  {
    var r := PayStart(f);
  }

  /** The same trace, written out by what the calls answer: each call in turn while the ones before
      it succeed, with the ids they gave; then, unless all did, what was made is unmade, last first. */
  lemma {:induction false} PaymentTrace(f: Fates)
    ensures var subscribed := f.methodValid && f.subscription.Some?;
            var paid := subscribed && f.payment.Some?;
            var invoiced := paid && f.invoice.Some?;
            var all := invoiced && f.activates;
            var run := RunSteps(PaySteps(f), []);
            (run.error.None? <==> all) &&
            run.world ==
               [ValidateMethod]
               + (if f.methodValid then [CreateSubscription(f.subscription)] else [])
               + (if subscribed then [ProcessPayment(f.subscription.value, f.payment)] else [])
               + (if paid then [GenerateInvoice(f.subscription.value, f.payment.value, f.invoice)] else [])
               + (if invoiced then [ActivateSubscription(f.subscription.value, f.activates)] else [])
               + ((if invoiced && !all then [CancelInvoice(f.invoice.value, f.cancels)] else [])
                  + (if paid && !all then [RefundPayment(f.payment.value, f.refunds)] else [])
                  + (if subscribed && !all then [DeleteSubscription(f.subscription.value, f.deletes)] else []))
  {
    PaymentCompensation(f);
    ForwardWritten(f);
    var run := RunSteps(PaySteps(f), []);
    if Reached(f) < 5 {
      PaymentUndos(f);
      UndoWritten(f);
    }
  }

  lemma {:induction false} PaymentUndos(f: Fates)
    requires Reached(f) < 5
    ensures UndosOwed(f, RunSteps(PaySteps(f), []).results) == UndoCalls(f, Reached(f))
  {
    var r := PayStart(f);
  }

  lemma {:induction false} ForwardWritten(f: Fates)
    ensures var n := Reached(f);
            ForwardCalls(f, 0) ==
            [ForwardCall(f, 0)]
            + (if n >= 1 then [ForwardCall(f, 1)] else []) + (if n >= 2 then [ForwardCall(f, 2)] else [])
            + (if n >= 3 then [ForwardCall(f, 3)] else []) + (if n >= 4 then [ForwardCall(f, 4)] else [])
  {
    assert ForwardCalls(f, 5) == [];
    assert ForwardCalls(f, 4) == if Reached(f) >= 4 then [ForwardCall(f, 4)] else [];
    assert ForwardCalls(f, 3) == if Reached(f) >= 3 then [ForwardCall(f, 3)] + ForwardCalls(f, 4) else [];
    assert ForwardCalls(f, 2) == if Reached(f) >= 2 then [ForwardCall(f, 2)] + ForwardCalls(f, 3) else [];
    assert ForwardCalls(f, 1) == if Reached(f) >= 1 then [ForwardCall(f, 1)] + ForwardCalls(f, 2) else [];
  }

  lemma {:induction false} UndoWritten(f: Fates)
    requires Reached(f) < 5
    ensures var n := Reached(f);
            UndoCalls(f, n) ==
            (if n >= 4 then [CancelInvoice(f.invoice.value, f.cancels)] else [])
            + (if n >= 3 then [RefundPayment(f.payment.value, f.refunds)] else [])
            + (if n >= 2 then [DeleteSubscription(f.subscription.value, f.deletes)] else [])
  {}

  // ----- Money -----

  /** Payments taken and not given back, after a trace that started with `owed`. */
  function Outstanding(owed: set<Id>, t: Trace): set<Id>
    decreases |t|
  {
    if t == [] then owed
    else
      Outstanding(match t[0]
                  case ProcessPayment(_, Some(p)) => owed + {p}
                  case RefundPayment(p, true) => owed - {p}
                  case _ => owed, t[1..])
  }

  lemma {:induction false} OutstandingAppends(owed: set<Id>, a: Trace, b: Trace)
    ensures Outstanding(owed, a + b) == Outstanding(Outstanding(owed, a), b)
    decreases |a|
  {
    if a == [] {
      assert a + b == b;
    } else {
      assert (a + b)[1..] == a[1..] + b;
      OutstandingAppends(match a[0]
                         case ProcessPayment(_, Some(p)) => owed + {p}
                         case RefundPayment(p, true) => owed - {p}
                         case _ => owed, a[1..], b);
    }
  }

  lemma {:induction false} MoneyForward(f: Fates, k: nat, owed: set<Id>)
    ensures Outstanding(owed, ForwardCalls(f, k)) ==
            owed + if k <= 2 <= Reached(f) && f.payment.Some? then {f.payment.value} else {}
    decreases 5 - k
  {
    if k < 5 && k <= Reached(f) {
      var calls := ForwardCalls(f, k);
      assert calls[1..] == ForwardCalls(f, k + 1);
      MoneyForward(f, k + 1, if k == 2 && f.payment.Some? then owed + {f.payment.value} else owed);
    }
  }

  lemma {:induction false} MoneyBack(f: Fates, k: nat, owed: set<Id>)
    requires k <= Reached(f) && k < 5
    ensures Outstanding(owed, UndoCalls(f, k)) == owed - if k >= 3 && f.refunds then {f.payment.value} else {}
    decreases k
  {
    var calls := UndoCalls(f, k);
    if k == 4 {
      assert calls[1..] == UndoCalls(f, 3);
      MoneyBack(f, 3, owed);
    } else if k == 3 {
      assert calls[1..] == UndoCalls(f, 2);
      MoneyBack(f, 2, if f.refunds then owed - {f.payment.value} else owed);
    } else if k == 2 {
      assert calls[1..] == [];
    }
  }

  /** Money is kept exactly when the saga completed, or when a payment was taken and its refund
      failed. */
  lemma {:induction false} MoneyKept(f: Fates)
    ensures var run := RunSteps(PaySteps(f), []);
            (run.done >= 3 ==> f.payment.Some?) &&
            Outstanding({}, run.world) ==
            if run.done >= 3 && f.payment.Some? && (run.error.None? || !f.refunds) then {f.payment.value} else {}
  {
    var r := PayStart(f);
    MoneyForward(f, 0, {});
    if r.done < 5 {
      OutstandingAppends({}, r.world, UndoCalls(f, r.done));
      MoneyBack(f, r.done, Outstanding({}, r.world));
    }
  }
}
