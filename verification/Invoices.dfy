/** Invoices and their payment transactions, over exact arithmetic. */
module Invoices {
  import opened Wrappers

  datatype InvoiceStatus = PENDING | PAID | OVERDUE

  datatype TransactionStatus = PROCESSING | SUCCEEDED

  datatype TransactionType = PAYMENT | REFUND

  datatype LineItem = LineItem(quantity: int, unitPrice: real)

  datatype Invoice = Invoice(lines: seq<real>, subtotal: real, taxAmount: real, total: real, status: InvoiceStatus,
                             dueDate: int, dunningLevel: nat)

  datatype Transaction = Transaction(invoiceId: Id, amount: real, status: TransactionStatus, kind: TransactionType)

  datatype Books = Books(invoices: map<Id, Invoice>, transactions: map<Id, Transaction>)

  /** What the payment provider answers: no intent, a flow the customer finishes elsewhere, or a
      direct confirmation, which throws, is declined or succeeds. */
  datatype Provider = IntentFails | Deferred | ConfirmThrows | Declined | Succeeds

  // ----- The single writes -----

  function Amount(item: LineItem): real {
    item.quantity as real * item.unitPrice
  }

  function Total(lines: seq<real>): real {
    if lines == [] then 0.0 else Total(lines[..|lines| - 1]) + lines[|lines| - 1]
  }

  function Tax(subtotal: real, taxRate: Option<real>): real {
    if taxRate.Some? then subtotal * (taxRate.value / 100.0) else 0.0
  }

  function NewInvoice(items: seq<LineItem>, taxRate: Option<real>, dueDate: int): Invoice {
    var lines := seq(|items|, i requires 0 <= i < |items| => Amount(items[i]));
    var tax := Tax(Total(lines), taxRate);
    Invoice(lines, Total(lines), tax, Total(lines) + tax, PENDING, dueDate, 0)
  }

  function OpenTransaction(b: Books, invoiceId: Id, id: Id): Books
    requires invoiceId in b.invoices
  {
    b.(transactions := b.transactions[id := Transaction(invoiceId, b.invoices[invoiceId].total, PROCESSING, PAYMENT)])
  }

  /** One database transaction: both rows change. */
  function MarkedPaid(b: Books, invoiceId: Id, id: Id): Books
    requires invoiceId in b.invoices && id in b.transactions
  {
    Books(b.invoices[invoiceId := b.invoices[invoiceId].(status := PAID)],
          b.transactions[id := b.transactions[id].(status := SUCCEEDED)])
  }

  function MarkedOverdue(i: Invoice): Invoice {
    i.(status := OVERDUE, dunningLevel := i.dunningLevel + 1)
  }

  predicate IsDue(i: Invoice, now: int) {
    i.status == PENDING && i.dueDate < now
  }

  function DueIn(b: Books, now: int): set<Id> {
    set id | id in b.invoices && IsDue(b.invoices[id], now)
  }

  // ----- The calls -----

  datatype Call =
    | Create(id: Id, items: seq<LineItem>, taxRate: Option<real>, dueDate: int)
    | Pay(invoiceId: Id, transactionId: Id, provider: Provider, writeFails: bool)
    | Dun(now: int, reached: set<Id>)
    | Refund(transactionId: Id, amount: Option<real>, providerFails: bool)

  /** `processPayment`: rejects a missing or paid invoice before anything is written. */
  function Paid(b: Books, invoiceId: Id, id: Id, provider: Provider, writeFails: bool): Books {
    if invoiceId !in b.invoices || b.invoices[invoiceId].status == PAID || provider.IntentFails? || id in b.transactions
    then b
    else
      var begun := OpenTransaction(b, invoiceId, id);
      if provider.Succeeds? && !writeFails then MarkedPaid(begun, invoiceId, id) else begun
  }

  /** `reached` are the invoices the sweep gets to before one of its updates throws, if one does. */
  function Dunned(b: Books, now: int, reached: set<Id>): Books {
    b.(invoices := map id | id in b.invoices ::
                     if id in reached && IsDue(b.invoices[id], now) then MarkedOverdue(b.invoices[id])
                     else b.invoices[id])
  }

  /** A full refund retypes the transaction; its status stays. */
  function Refunded(b: Books, id: Id, amount: Option<real>, providerFails: bool): Books {
    if id !in b.transactions || b.transactions[id].status != SUCCEEDED || providerFails then b
    else if amount.None? || amount.value == 0.0 || amount.value >= b.transactions[id].amount then
      b.(transactions := b.transactions[id := b.transactions[id].(kind := REFUND)])
    else b
  }

  function Apply(b: Books, c: Call): Books {
    match c
    case Create(id, items, taxRate, dueDate) =>
      if id in b.invoices then b else b.(invoices := b.invoices[id := NewInvoice(items, taxRate, dueDate)])
    case Pay(invoiceId, id, provider, writeFails) => Paid(b, invoiceId, id, provider, writeFails)
    case Dun(now, reached) => Dunned(b, now, reached)
    case Refund(id, amount, providerFails) => Refunded(b, id, amount, providerFails)
  }

  function Run(calls: seq<Call>): Books {
    if calls == [] then Books(map[], map[]) else Apply(Run(calls[..|calls| - 1]), calls[|calls| - 1])
  }

  class BillingService {
    var invoices: map<Id, Invoice>
    var transactions: map<Id, Transaction>

    constructor ()
      ensures State() == Books(map[], map[])
    {
      invoices, transactions := map[], map[];
    }

    function State(): Books
      reads this
    {
      Books(invoices, transactions)
    }

    method CreateInvoice(id: Id, lineItems: seq<LineItem>, taxRate: Option<real>, dueDate: int) returns (created: bool)
      modifies this
      ensures created == (id !in old(invoices))
      ensures State() == Apply(old(State()), Create(id, lineItems, taxRate, dueDate))
    {
      var subtotal, lines := 0.0, [];
      ghost var all := NewInvoice(lineItems, taxRate, dueDate).lines;
      for i := 0 to |lineItems|
        invariant lines == all[..i] && subtotal == Total(lines)
      {
        subtotal := subtotal + Amount(lineItems[i]);
        lines := lines + [Amount(lineItems[i])];
        assert lines[..|lines| - 1] == all[..i];
      }
      assert lines == all && subtotal == Total(all);
      var taxAmount := if taxRate.Some? then subtotal * (taxRate.value / 100.0) else 0.0;
      assert taxAmount == Tax(Total(all), taxRate);
      assert Invoice(lines, subtotal, taxAmount, subtotal + taxAmount, PENDING, dueDate, 0)
          == NewInvoice(lineItems, taxRate, dueDate);
      created := id !in invoices;
      if created {
        invoices := invoices[id := Invoice(lines, subtotal, taxAmount, subtotal + taxAmount, PENDING, dueDate, 0)];
      }
    }

    /** One database transaction: if either row is missing it throws and neither changes. */
    method MarkInvoicePaid(invoiceId: Id, transactionId: Id) returns (ok: bool)
      modifies this
      ensures ok <==> invoiceId in old(invoices) && transactionId in old(transactions)
      ensures State() == if ok then MarkedPaid(old(State()), invoiceId, transactionId) else old(State())
    {
      ok := invoiceId in invoices && transactionId in transactions;
      if !ok {
        return;
      }
      invoices := invoices[invoiceId := invoices[invoiceId].(status := PAID)];
      transactions := transactions[transactionId := transactions[transactionId].(status := SUCCEEDED)];
    }

    method ProcessPayment(invoiceId: Id, transactionId: Id, provider: Provider, writeFails: bool) returns (ok: bool)
      modifies this
      ensures State() == Apply(old(State()), Pay(invoiceId, transactionId, provider, writeFails))
      ensures ok <==> invoiceId in old(invoices) && old(invoices)[invoiceId].status != PAID &&
                      transactionId !in old(transactions) &&
                      (provider.Deferred? || provider.Declined? || (provider.Succeeds? && !writeFails))
    {
      if invoiceId !in invoices || invoices[invoiceId].status == PAID {
        return false;
      }
      if provider.IntentFails? || transactionId in transactions {
        return false;
      }
      transactions := transactions[transactionId :=
                                   Transaction(invoiceId, invoices[invoiceId].total, PROCESSING, PAYMENT)];
      if provider.Deferred? {
        return true;
      }
      if provider.ConfirmThrows? {
        return false;
      }
      if provider.Succeeds? {
        if writeFails {
          return false;
        }
        ok := MarkInvoicePaid(invoiceId, transactionId);
        return;
      }
      return true;
    }

    /** Looks up the due invoices and marks one after the other, in the order the database gives
        them, until an update throws. */
    method ProcessOverdueInvoices(now: int, updateFails: set<Id>) returns (count: nat, threw: bool, marked: set<Id>)
      modifies this`invoices
      ensures State() == Apply(old(State()), Dun(now, marked))
      ensures var due := DueIn(old(State()), now);
              && marked <= due - updateFails && count == |marked|
              && (threw <==> marked != due) && (threw <==> due * updateFails != {})
    {
      var overdueInvoices := DueIn(State(), now);
      marked := {};
      while marked != overdueInvoices
        invariant overdueInvoices == DueIn(old(State()), now) <= invoices.Keys == old(invoices).Keys
        invariant marked <= overdueInvoices - updateFails
        invariant forall id :: id in invoices ==>
                                 invoices[id] == if id in marked then MarkedOverdue(old(invoices)[id])
                                                 else old(invoices)[id]
        decreases overdueInvoices - marked
      {
        assert overdueInvoices == marked + (overdueInvoices - marked);
        var id :| id in overdueInvoices - marked;
        if id in updateFails {
          assert id in overdueInvoices * updateFails;
          assert invoices == Dunned(old(State()), now, marked).invoices;
          return |marked|, true, marked;
        }
        invoices := invoices[id := MarkedOverdue(invoices[id])];
        marked := marked + {id};
      }
      assert invoices == Dunned(old(State()), now, marked).invoices;
      return |marked|, false, marked;
    }

    method RefundPayment(transactionId: Id, amount: Option<real>, providerFails: bool) returns (ok: bool)
      modifies this`transactions
      ensures State() == Apply(old(State()), Refund(transactionId, amount, providerFails))
      ensures ok ==> transactionId in old(transactions) && old(transactions)[transactionId].status == SUCCEEDED
    {
      if transactionId !in transactions || transactions[transactionId].status != SUCCEEDED || providerFails {
        return false;
      }
      if amount.None? || amount.value == 0.0 || amount.value >= transactions[transactionId].amount {
        transactions := transactions[transactionId := transactions[transactionId].(kind := REFUND)];
      }
      return true;
    }
  }

  // ----- What every history of calls keeps -----

  predicate Succeeded(b: Books, invoiceId: Id, t: Id) {
    t in b.transactions && b.transactions[t].invoiceId == invoiceId && b.transactions[t].status == SUCCEEDED
  }

  function SucceededFor(b: Books, invoiceId: Id): set<Id> {
    set t | t in b.transactions && Succeeded(b, invoiceId, t)
  }

  predicate PaidOnce(b: Books, invoiceId: Id)
    requires invoiceId in b.invoices
  {
    if b.invoices[invoiceId].status == PAID
    then exists t :: t in b.transactions && SucceededFor(b, invoiceId) == {t}
    else SucceededFor(b, invoiceId) == {}
  }

  predicate InvoiceSound(i: Invoice) {
    && i.subtotal == Total(i.lines) && i.total == i.subtotal + i.taxAmount
    && i.dunningLevel <= 1
    && (i.status == PENDING ==> i.dunningLevel == 0) && (i.status == OVERDUE ==> i.dunningLevel == 1)
  }

  ghost predicate Sound(b: Books) {
    && (forall id :: id in b.invoices ==> InvoiceSound(b.invoices[id]) && PaidOnce(b, id))
    && (forall t :: t in b.transactions ==>
                      b.transactions[t].invoiceId in b.invoices &&
                      b.transactions[t].amount == b.invoices[b.transactions[t].invoiceId].total)
  }

  /** Transactions of other invoices do not matter to one. */
  lemma {:induction false} SucceededSame(b: Books, b': Books, invoiceId: Id)
    requires forall t :: Succeeded(b', invoiceId, t) <==> Succeeded(b, invoiceId, t)
    ensures SucceededFor(b', invoiceId) == SucceededFor(b, invoiceId)
  {
    forall t
      ensures t in SucceededFor(b', invoiceId) <==> t in SucceededFor(b, invoiceId)
    {
      assert Succeeded(b', invoiceId, t) <==> Succeeded(b, invoiceId, t);
    }
  }

  lemma {:induction false} OpeningKeeps(b: Books, invoiceId: Id, id: Id)
    requires Sound(b) && invoiceId in b.invoices && id !in b.transactions
    ensures Sound(OpenTransaction(b, invoiceId, id))
  {
    var b' := OpenTransaction(b, invoiceId, id);
    forall i | i in b'.invoices
      ensures PaidOnce(b', i)
    {
      SucceededSame(b, b', i);
    }
  }

  lemma {:induction false} PayingUnpaidKeeps(b: Books, invoiceId: Id, id: Id)
    requires Sound(b) && invoiceId in b.invoices && id in b.transactions
    requires b.transactions[id].invoiceId == invoiceId && b.invoices[invoiceId].status != PAID
    ensures Sound(MarkedPaid(b, invoiceId, id))
  {
    var b' := MarkedPaid(b, invoiceId, id);
    forall i | i in b'.invoices
      ensures PaidOnce(b', i)
    {
      assert PaidOnce(b, i);
      if i != invoiceId {
        SucceededSame(b, b', i);
      } else {
        assert SucceededFor(b', invoiceId) == SucceededFor(b, invoiceId) + {id} == {id};
      }
    }
  }

  lemma {:induction false} PayingPaidBreaks(b: Books, invoiceId: Id, id: Id)
    requires invoiceId in b.invoices && id in b.transactions && PaidOnce(b, invoiceId)
    requires b.transactions[id].invoiceId == invoiceId && b.transactions[id].status == PROCESSING
    requires b.invoices[invoiceId].status == PAID
    ensures !PaidOnce(MarkedPaid(b, invoiceId, id), invoiceId)
  {
    var b' := MarkedPaid(b, invoiceId, id);
    var t :| t in b.transactions && SucceededFor(b, invoiceId) == {t};
    assert t in SucceededFor(b, invoiceId) && t != id;
    assert t in SucceededFor(b', invoiceId) && id in SucceededFor(b', invoiceId);
  }

  /** Recording a success keeps the books sound if and only if the invoice is not paid already. */
  lemma {:induction false} PayingKeepsIff(b: Books, invoiceId: Id, id: Id)
    requires Sound(b) && invoiceId in b.invoices && id in b.transactions
    requires b.transactions[id].invoiceId == invoiceId && b.transactions[id].status == PROCESSING
    ensures Sound(MarkedPaid(b, invoiceId, id)) <==> b.invoices[invoiceId].status != PAID
  {
    if b.invoices[invoiceId].status != PAID {
      PayingUnpaidKeeps(b, invoiceId, id);
    } else {
      PayingPaidBreaks(b, invoiceId, id);
      assert invoiceId in MarkedPaid(b, invoiceId, id).invoices;
    }
  }

  /** Marking an invoice overdue keeps the books sound if and only if it is still pending: after
      the sweep has looked, a payment or another sweep may have come in between. */
  lemma {:induction false} DunningKeepsIff(b: Books, invoiceId: Id)
    requires Sound(b) && invoiceId in b.invoices
    ensures Sound(b.(invoices := b.invoices[invoiceId := MarkedOverdue(b.invoices[invoiceId])]))
            <==> b.invoices[invoiceId].status == PENDING
  {
    var b' := b.(invoices := b.invoices[invoiceId := MarkedOverdue(b.invoices[invoiceId])]);
    forall i | i in b'.invoices
      ensures SucceededFor(b', i) == SucceededFor(b, i)
    {}
    assert PaidOnce(b, invoiceId) && InvoiceSound(b.invoices[invoiceId]);
    if b.invoices[invoiceId].status == PENDING {
      forall i | i in b'.invoices
        ensures InvoiceSound(b'.invoices[i]) && PaidOnce(b', i)
      {
        assert PaidOnce(b, i);
      }
    } else if b.invoices[invoiceId].status == PAID {
      assert !PaidOnce(b', invoiceId);
    } else {
      assert !InvoiceSound(b'.invoices[invoiceId]);
    }
  }

  lemma {:induction false} SweepKeeps(b: Books, now: int, reached: set<Id>)
    requires Sound(b)
    ensures Sound(Dunned(b, now, reached))
  {
    var b' := Dunned(b, now, reached);
    forall i | i in b'.invoices
      ensures InvoiceSound(b'.invoices[i]) && PaidOnce(b', i)
    {
      SucceededSame(b, b', i);
      assert PaidOnce(b, i);
    }
  }

  lemma {:induction false} RefundKeeps(b: Books, id: Id, amount: Option<real>, providerFails: bool)
    requires Sound(b)
    ensures Sound(Refunded(b, id, amount, providerFails))
  {
    var b' := Refunded(b, id, amount, providerFails);
    forall i | i in b'.invoices
      ensures PaidOnce(b', i)
    {
      SucceededSame(b, b', i);
      assert PaidOnce(b, i);
    }
  }

  lemma {:induction false} CreateKeeps(b: Books, id: Id, i: Invoice)
    requires Sound(b) && id !in b.invoices && InvoiceSound(i) && i.status == PENDING
    ensures Sound(b.(invoices := b.invoices[id := i]))
  {
    var b' := b.(invoices := b.invoices[id := i]);
    forall k | k in b'.invoices
      ensures PaidOnce(b', k)
    {
      SucceededSame(b, b', k);
      if k == id {
        assert SucceededFor(b, id) == {};
      } else {
        assert PaidOnce(b, k);
      }
    }
  }

  lemma {:induction false} CallKeeps(b: Books, c: Call)
    requires Sound(b)
    ensures Sound(Apply(b, c))
  {
    match c {
      case Create(id, items, taxRate, dueDate) =>
        if id !in b.invoices {
          CreateKeeps(b, id, NewInvoice(items, taxRate, dueDate));
        }
      case Pay(invoiceId, id, provider, writeFails) =>
        if invoiceId in b.invoices && b.invoices[invoiceId].status != PAID && id !in b.transactions {
          OpeningKeeps(b, invoiceId, id);
          PayingKeepsIff(OpenTransaction(b, invoiceId, id), invoiceId, id);
        }
      case Dun(now, reached) => SweepKeeps(b, now, reached);
      case Refund(id, amount, providerFails) => RefundKeeps(b, id, amount, providerFails);
    }
  }

  /** Over any history of atomic calls: an invoice is paid exactly when one succeeded transaction
      exists for it, of its total; totals are the lines plus tax; dunning happens at most once. */
  lemma {:induction false} BooksStaySound(calls: seq<Call>)
    ensures Sound(Run(calls))
  {
    if calls != [] {
      BooksStaySound(calls[..|calls| - 1]);
      CallKeeps(Run(calls[..|calls| - 1]), calls[|calls| - 1]);
    }
  }

  /** What later calls leave of an invoice. */
  predicate Follows(i: Invoice, j: Invoice) {
    && (i.status == PAID ==> j == i) && j.total == i.total && j.lines == i.lines
    && j.dunningLevel >= i.dunningLevel
  }

  lemma {:induction false} CallFollows(b: Books, c: Call, id: Id)
    requires id in b.invoices
    ensures id in Apply(b, c).invoices && Follows(b.invoices[id], Apply(b, c).invoices[id])
  {}

  /** Once paid, an invoice stays paid, with the same amounts. */
  lemma {:induction false} PaidIsNeverLeft(calls: seq<Call>, more: seq<Call>, id: Id)
    requires id in Run(calls).invoices
    ensures id in Run(calls + more).invoices
    ensures Follows(Run(calls).invoices[id], Run(calls + more).invoices[id])
  {
    if more == [] {
      assert calls + more == calls;
    } else {
      var p, c := more[..|more| - 1], more[|more| - 1];
      PaidIsNeverLeft(calls, p, id);
      assert (calls + more)[..|calls + more| - 1] == calls + p && (calls + more)[|calls + more| - 1] == c;
      CallFollows(Run(calls + p), c, id);
    }
  }

  // ----- What each call changes -----

  /** A sweep changes an invoice if and only if it reached it, pending and past its due date; then
      only to overdue with one more dunning level.  Transactions are left alone. */
  lemma {:induction false} DunChangesIff(b: Books, now: int, reached: set<Id>, id: Id)
    requires id in b.invoices
    ensures var i, b' := b.invoices[id], Apply(b, Dun(now, reached));
            && b'.transactions == b.transactions && b'.invoices.Keys == b.invoices.Keys
            && (b'.invoices[id] != i <==> id in reached && i.status == PENDING && i.dueDate < now)
            && (b'.invoices[id] != i ==> b'.invoices[id] == i.(status := OVERDUE, dunningLevel := i.dunningLevel + 1))
  {
    var i := b.invoices[id];
    assert i.(status := OVERDUE, dunningLevel := i.dunningLevel + 1).dunningLevel != i.dunningLevel;
  }

  /** Some sweep reached the invoice after its due date. */
  ghost predicate WasDue(calls: seq<Call>, id: Id, dueDate: int) {
    exists k :: 0 <= k < |calls| && calls[k].Dun? && id in calls[k].reached && dueDate < calls[k].now
  }

  /** Only a creation brings an invoice in, only a sweep makes it overdue, and its due date stays. */
  lemma {:induction false} CallKeepsDueDate(b: Books, c: Call, id: Id)
    requires id in Apply(b, c).invoices
    ensures var j := Apply(b, c).invoices[id];
            if id in b.invoices then
              var i := b.invoices[id];
              j.dueDate == i.dueDate && (j.status == OVERDUE && i.status != OVERDUE ==>
                                           c.Dun? && id in c.reached && i.dueDate < c.now)
            else j.status != OVERDUE
  {}

  /** Over all histories an invoice is overdue only if a sweep reached it after its due date. */
  lemma {:induction false} OverdueWasDue(calls: seq<Call>, id: Id)
    requires id in Run(calls).invoices && Run(calls).invoices[id].status == OVERDUE
    ensures WasDue(calls, id, Run(calls).invoices[id].dueDate)
  {
    if calls != [] {
      var before, c := calls[..|calls| - 1], calls[|calls| - 1];
      CallKeepsDueDate(Run(before), c, id);
      if id in Run(before).invoices && Run(before).invoices[id].status == OVERDUE {
        OverdueWasDue(before, id);
        var k :| 0 <= k < |before| && before[k].Dun? && id in before[k].reached &&
                 Run(before).invoices[id].dueDate < before[k].now;
        assert calls[k] == before[k];
      } else {
        assert calls[|calls| - 1] == c;
      }
    }
  }

  /** The sum of the lines, one by one. */
  lemma {:induction false} TotalIsSum(lines: seq<real>, x: real)
    ensures Total([]) == 0.0 && Total(lines + [x]) == Total(lines) + x
  {
    assert (lines + [x])[..|lines|] == lines;
  }

  /** A new invoice has a line of quantity times unit price for each item, their sum, the tax rate
      in percent of it, if a rate is given, and the total of both; it is pending until its due date. */
  lemma {:induction false} CreateMakes(b: Books, id: Id, items: seq<LineItem>, taxRate: Option<real>, dueDate: int)
    ensures var b' := Apply(b, Create(id, items, taxRate, dueDate));
            && b'.transactions == b.transactions && b'.invoices.Keys == b.invoices.Keys + {id}
            && (forall x :: x in b.invoices ==> b'.invoices[x] == b.invoices[x])
            && (id !in b.invoices ==>
                  var i := b'.invoices[id];
                  && |i.lines| == |items|
                  && (forall k :: 0 <= k < |items| ==> i.lines[k] == items[k].quantity as real * items[k].unitPrice)
                  && i.subtotal == Total(i.lines)
                  && (taxRate.None? ==> i.taxAmount == 0.0)
                  && (taxRate.Some? ==> i.taxAmount == i.subtotal * taxRate.value / 100.0)
                  && i.total == i.subtotal + i.taxAmount
                  && i.status == PENDING && i.dunningLevel == 0 && i.dueDate == dueDate)
  {}

  /** A payment that the provider gives an intent for opens a transaction of the invoice's total;
      the invoice becomes paid, and the transaction succeeds, exactly when the provider confirms at
      once and the write works. */
  lemma {:induction false} PayChangesIff(b: Books, invoiceId: Id, id: Id, provider: Provider, writeFails: bool)
    requires invoiceId in b.invoices && id !in b.transactions
    ensures var b', i := Apply(b, Pay(invoiceId, id, provider, writeFails)), b.invoices[invoiceId];
            var opens := i.status != PAID && !provider.IntentFails?;
            var pays := opens && provider.Succeeds? && !writeFails;
            && b'.invoices == (if pays then b.invoices[invoiceId := i.(status := PAID)] else b.invoices)
            && b'.transactions ==
               (if opens then
                  b.transactions[id := Transaction(invoiceId, i.total, if pays then SUCCEEDED else PROCESSING, PAYMENT)]
                else b.transactions)
  {
    var i := b.invoices[invoiceId];
    var t := Transaction(invoiceId, i.total, PROCESSING, PAYMENT);
    assert b.transactions[id := t][id := t.(status := SUCCEEDED)] == b.transactions[id := t.(status := SUCCEEDED)];
  }

  /** A refund changes a transaction if and only if it succeeded, the provider gives the money back
      and the whole amount is asked for, or no amount; then it becomes a refund and nothing else. */
  lemma {:induction false} RefundChangesIff(b: Books, id: Id, amount: Option<real>, providerFails: bool)
    requires id in b.transactions && b.transactions[id].kind == PAYMENT
    ensures var t, b' := b.transactions[id], Apply(b, Refund(id, amount, providerFails));
            var whole := amount == None || amount == Some(0.0) || amount.value >= t.amount;
            && b'.invoices == b.invoices
            && (b' != b <==> t.status == SUCCEEDED && !providerFails && whole)
            && (b' != b ==> b'.transactions == b.transactions[id := t.(kind := REFUND)])
  {
    assert b.transactions[id := b.transactions[id].(kind := REFUND)][id].kind == REFUND;
  }
}
