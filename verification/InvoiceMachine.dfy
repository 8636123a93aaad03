/**
 Payments and sweeps whose single reads and writes interleave.  A payment checks its invoice, opens
 a transaction and, when the provider confirms, records the success; a sweep looks up what is due
 and then marks invoice after invoice.  Anything may happen between two of these.
 */
module InvoiceMachine {
  import opened Wrappers
  import opened Invoices

  datatype Session =
    | Checked(invoiceId: Id)
    | Opened(invoiceId: Id, id: Id)
    | Sweeping(due: set<Id>)

  datatype Shop = Shop(books: Books, sessions: map<nat, Session>)

  datatype Event =
    | Whole(call: Call)
    | Check(session: nat, invoiceId: Id)
    | Open(session: nat, id: Id)
    | Confirm(session: nat)
    | LookUp(session: nat, now: int)
    | MarkOverdue(session: nat, invoiceId: Id)

  function Step(m: Shop, e: Event): Shop {
    match e
    case Whole(call) => m.(books := Apply(m.books, call))
    case Check(s, invoiceId) =>
      if invoiceId in m.books.invoices && m.books.invoices[invoiceId].status != PAID
      then m.(sessions := m.sessions[s := Checked(invoiceId)]) else m
    case Open(s, id) =>
      if s in m.sessions && m.sessions[s].Checked? && m.sessions[s].invoiceId in m.books.invoices
         && id !in m.books.transactions
      then Shop(OpenTransaction(m.books, m.sessions[s].invoiceId, id),
                m.sessions[s := Opened(m.sessions[s].invoiceId, id)])
      else m
    case Confirm(s) =>
      if Confirms(m, s) then Shop(MarkedPaid(m.books, m.sessions[s].invoiceId, m.sessions[s].id), m.sessions - {s})
      else m
    case LookUp(s, now) => m.(sessions := m.sessions[s := Sweeping(DueIn(m.books, now))])
    case MarkOverdue(s, invoiceId) =>
      if Marks(m, s, invoiceId)
      then Shop(m.books.(invoices := m.books.invoices[invoiceId := MarkedOverdue(m.books.invoices[invoiceId])]),
                m.sessions[s := Sweeping(m.sessions[s].due - {invoiceId})])
      else m
  }

  /** The session has an open transaction to record as succeeded. */
  predicate Confirms(m: Shop, s: nat) {
    && s in m.sessions && m.sessions[s].Opened?
    && m.sessions[s].invoiceId in m.books.invoices && m.sessions[s].id in m.books.transactions
  }

  predicate Marks(m: Shop, s: nat, invoiceId: Id) {
    s in m.sessions && m.sessions[s].Sweeping? && invoiceId in m.sessions[s].due && invoiceId in m.books.invoices
  }

  function Play(events: seq<Event>): Shop {
    if events == [] then Shop(Books(map[], map[]), map[])
    else Step(Play(events[..|events| - 1]), events[|events| - 1])
  }

  /** A write is in time if what was read before it still holds: the invoice is not paid when a
      success is recorded, and pending when it is marked overdue. */
  predicate InTime(m: Shop, e: Event) {
    match e
    case Confirm(s) => Confirms(m, s) ==> m.books.invoices[m.sessions[s].invoiceId].status != PAID
    case MarkOverdue(s, invoiceId) => Marks(m, s, invoiceId) ==> m.books.invoices[invoiceId].status == PENDING
    case _ => true
  }

  /** What the sessions know stays true: invoices and transactions are never removed, and an open
      transaction is processed by its session alone. */
  ghost predicate SessionsHold(m: Shop) {
    && (forall s :: s in m.sessions && m.sessions[s].Checked? ==> m.sessions[s].invoiceId in m.books.invoices)
    && (forall s :: s in m.sessions && m.sessions[s].Opened? ==>
                      && m.sessions[s].invoiceId in m.books.invoices && m.sessions[s].id in m.books.transactions
                      && m.books.transactions[m.sessions[s].id].invoiceId == m.sessions[s].invoiceId
                      && m.books.transactions[m.sessions[s].id].status == PROCESSING)
    && (forall s, s' ::
          (s in m.sessions && s' in m.sessions && s != s' && m.sessions[s].Opened? && m.sessions[s'].Opened?) ==>
            m.sessions[s].id != m.sessions[s'].id)
  }

  lemma {:induction false} SessionsHoldNext(m: Shop, e: Event)
    requires SessionsHold(m)
    ensures SessionsHold(Step(m, e))
  {
    match e {
      case Whole(call) =>
        assert m.books.invoices.Keys <= Apply(m.books, call).invoices.Keys;
        assert forall t :: t in m.books.transactions && m.books.transactions[t].status == PROCESSING ==>
                             Apply(m.books, call).transactions[t] == m.books.transactions[t];
      case _ =>
    }
  }

  lemma {:induction false} SessionsHoldAlways(events: seq<Event>)
    ensures SessionsHold(Play(events))
  {
    if events != [] {
      SessionsHoldAlways(events[..|events| - 1]);
      SessionsHoldNext(Play(events[..|events| - 1]), events[|events| - 1]);
    }
  }

  lemma {:induction false} StepKeepsIff(m: Shop, e: Event)
    requires SessionsHold(m) && Sound(m.books)
    ensures Sound(Step(m, e).books) <==> InTime(m, e)
  {
    match e {
      case Whole(call) => CallKeeps(m.books, call);
      case Open(s, id) =>
        if Step(m, e) != m {
          OpeningKeeps(m.books, m.sessions[s].invoiceId, id);
        }
      case Confirm(s) =>
        if Confirms(m, s) {
          PayingKeepsIff(m.books, m.sessions[s].invoiceId, m.sessions[s].id);
        }
      case MarkOverdue(s, invoiceId) =>
        if Marks(m, s, invoiceId) {
          DunningKeepsIff(m.books, invoiceId);
        }
      case _ =>
    }
  }

  ghost predicate SoundAt(events: seq<Event>, k: nat)
    requires k <= |events|
  {
    Sound(Play(events[..k]).books)
  }

  predicate InTimeAt(events: seq<Event>, k: nat)
    requires k < |events|
  {
    InTime(Play(events[..k]), events[k])
  }

  lemma {:induction false} StepAt(events: seq<Event>, k: nat)
    requires k < |events| && SoundAt(events, k)
    ensures SoundAt(events, k + 1) <==> InTimeAt(events, k)
  {
    assert events[..k + 1][..k] == events[..k];
    SessionsHoldAlways(events[..k]);
    StepKeepsIff(Play(events[..k]), events[k]);
  }

  lemma {:induction false} SoundWhileInTime(events: seq<Event>, k: nat)
    requires k <= |events| && forall j :: 0 <= j < k ==> InTimeAt(events, j)
    ensures SoundAt(events, k)
  {
    if k > 0 {
      SoundWhileInTime(events, k - 1);
      StepAt(events, k - 1);
    }
  }

  /** Over every interleaving of whole calls, payments and sweeps: the books are sound at every
      moment if and only if every write of a payment or a sweep comes in time. */
  lemma {:induction false} SoundThroughoutIffInTime(events: seq<Event>)
    ensures (forall k :: 0 <= k <= |events| ==> SoundAt(events, k)) <==>
            (forall k :: 0 <= k < |events| ==> InTimeAt(events, k))
  {
    if forall k :: 0 <= k <= |events| ==> SoundAt(events, k) {
      forall k | 0 <= k < |events|
        ensures InTimeAt(events, k)
      {
        assert SoundAt(events, k) && SoundAt(events, k + 1);
        StepAt(events, k);
      }
    }
    if forall k :: 0 <= k < |events| ==> InTimeAt(events, k) {
      forall k | 0 <= k <= |events|
        ensures SoundAt(events, k)
      {
        SoundWhileInTime(events, k);
      }
    }
  }

  /** Left alone, the pieces of a payment do what the whole call does. */
  lemma {:induction false} PaymentInPieces(m: Shop, s: nat, invoiceId: Id, id: Id)
    requires id !in m.books.transactions && s !in m.sessions
    ensures Step(Step(Step(m, Check(s, invoiceId)), Open(s, id)), Confirm(s)).books ==
            Apply(m.books, Pay(invoiceId, id, Succeeds, false))
  {
    var checked := Step(m, Check(s, invoiceId));
    var ready := Step(checked, Open(s, id));
    if invoiceId in m.books.invoices && m.books.invoices[invoiceId].status != PAID {
      assert ready.sessions[s] == Opened(invoiceId, id);
    }
  }

  /** One step more. */
  lemma {:induction false} PlayOn(events: seq<Event>, e: Event)
    ensures Play(events + [e]) == Step(Play(events), e)
  {
    assert (events + [e])[..|events|] == events;
  }

  lemma {:induction false} BothOpen(m: Shop, invoiceId: Id, s: nat, s': nat, t: Id, u: Id)
    requires invoiceId in m.books.invoices && m.books.invoices[invoiceId].status != PAID
    requires s != s' && t != u && t !in m.books.transactions && u !in m.books.transactions
    ensures var m' := Step(Step(Step(Step(m, Check(s, invoiceId)), Check(s', invoiceId)), Open(s, t)), Open(s', u));
            && Confirms(m', s) && m'.sessions[s] == Opened(invoiceId, t)
            && Confirms(m', s') && m'.sessions[s'] == Opened(invoiceId, u)
            && m'.books.transactions[t].invoiceId == m'.books.transactions[u].invoiceId == invoiceId
  {}

  lemma {:induction false} BothConfirm(m: Shop, invoiceId: Id, s: nat, s': nat, t: Id, u: Id)
    requires s != s' && t != u && Confirms(m, s) && Confirms(m, s')
    requires m.sessions[s] == Opened(invoiceId, t) && m.sessions[s'] == Opened(invoiceId, u)
    requires m.books.transactions[t].invoiceId == m.books.transactions[u].invoiceId == invoiceId
    ensures {t, u} <= SucceededFor(Step(Step(m, Confirm(s)), Confirm(s')).books, invoiceId)
  {}

  /** After any history, two payments of an unpaid invoice that both check before either confirms
      are both taken. */
  lemma {:induction false} DoublePayment(events: seq<Event>, invoiceId: Id, s: nat, s': nat, t: Id, u: Id)
    requires var b := Play(events).books;
             && invoiceId in b.invoices && b.invoices[invoiceId].status != PAID
             && t !in b.transactions && u !in b.transactions
    requires s != s' && t != u
    ensures var checked := events + [Check(s, invoiceId)] + [Check(s', invoiceId)];
            {t, u} <= SucceededFor(Play(checked + [Open(s, t)] + [Open(s', u)] + [Confirm(s)] + [Confirm(s')]).books,
                                   invoiceId)
  {
    PlayOn(events, Check(s, invoiceId));
    PlayOn(events + [Check(s, invoiceId)], Check(s', invoiceId));
    var checked := events + [Check(s, invoiceId)] + [Check(s', invoiceId)];
    PlayOn(checked, Open(s, t));
    PlayOn(checked + [Open(s, t)], Open(s', u));
    var both := checked + [Open(s, t)] + [Open(s', u)];
    PlayOn(both, Confirm(s));
    PlayOn(both + [Confirm(s)], Confirm(s'));
    BothOpen(Play(events), invoiceId, s, s', t, u);
    BothConfirm(Play(both), invoiceId, s, s', t, u);
  }

  /** After any history, a payment between a sweep's look and its update leaves the paid invoice
      overdue. */
  lemma {:induction false} PaidIsLeft(events: seq<Event>, invoiceId: Id, s: nat, t: Id, now: int)
    requires invoiceId in DueIn(Play(events).books, now) && t !in Play(events).books.transactions
    ensures var pay := Whole(Pay(invoiceId, t, Succeeds, false));
            var b := Play(events + [LookUp(s, now)] + [pay] + [MarkOverdue(s, invoiceId)]).books;
            invoiceId in b.invoices && b.invoices[invoiceId].status == OVERDUE && t in SucceededFor(b, invoiceId)
  {
    var pay := Whole(Pay(invoiceId, t, Succeeds, false));
    PlayOn(events, LookUp(s, now));
    PlayOn(events + [LookUp(s, now)], pay);
    PlayOn(events + [LookUp(s, now)] + [pay], MarkOverdue(s, invoiceId));
  }

  /** Both can happen: an invoice just created is unpaid, and due after its date. */
  lemma {:induction false} CreatedIsOpen(id: Id, items: seq<LineItem>, dueDate: int, now: int)
    requires dueDate < now
    ensures var b := Play([Whole(Create(id, items, None, dueDate))]).books;
            id in DueIn(b, now) && b.transactions == map[]
  {
    PlayOn([], Whole(Create(id, items, None, dueDate)));
    assert [] + [Whole(Create(id, items, None, dueDate))] == [Whole(Create(id, items, None, dueDate))];
  }

  /** One update of a sweep after another. */
  function MarkAll(m: Shop, s: nat, ids: seq<Id>): Shop {
    if ids == [] then m else Step(MarkAll(m, s, ids[..|ids| - 1]), MarkOverdue(s, ids[|ids| - 1]))
  }

  /** A sweep that has reached some of the due invoices, and one more of them. */
  lemma {:induction false} OneMark(b: Books, now: int, done: set<Id>, id: Id)
    requires id in DueIn(b, now) && id !in done
    ensures var b' := Dunned(b, now, done);
            b'.invoices[id] == b.invoices[id] &&
            Dunned(b, now, done + {id}) == b'.(invoices := b'.invoices[id := MarkedOverdue(b.invoices[id])])
  {
    var b' := Dunned(b, now, done);
    assert Dunned(b, now, done + {id}).invoices == b'.invoices[id := MarkedOverdue(b.invoices[id])];
  }

  lemma {:induction false} MarkStep(m: Shop, b: Books, s: nat, now: int, done: set<Id>, id: Id)
    requires m.books == Dunned(b, now, done) && id in DueIn(b, now) && id !in done
    requires s in m.sessions && m.sessions[s] == Sweeping(DueIn(b, now) - done)
    ensures var m' := Step(m, MarkOverdue(s, id));
            && m'.books == Dunned(b, now, done + {id})
            && s in m'.sessions && m'.sessions[s] == Sweeping(DueIn(b, now) - (done + {id}))
  {
    OneMark(b, now, done, id);
    assert DueIn(b, now) - done - {id} == DueIn(b, now) - (done + {id});
  }

  function Those(ids: seq<Id>): set<Id> {
    set id | id in ids
  }

  lemma {:induction false} OneMore(ids: seq<Id>)
    requires ids != [] && forall j, k :: 0 <= j < k < |ids| ==> ids[j] != ids[k]
    ensures var n := |ids| - 1;
            Those(ids) == Those(ids[..n]) + {ids[n]} && ids[n] !in Those(ids[..n])
  {
    var n := |ids| - 1;
    assert ids == ids[..n] + [ids[n]];
  }

  lemma {:induction false} MarkedSoFar(m: Shop, s: nat, now: int, ids: seq<Id>)
    requires forall k :: 0 <= k < |ids| ==> ids[k] in DueIn(m.books, now)
    requires forall j, k :: 0 <= j < k < |ids| ==> ids[j] != ids[k]
    ensures var m' := MarkAll(Step(m, LookUp(s, now)), s, ids);
            && m'.books == Dunned(m.books, now, Those(ids))
            && s in m'.sessions && m'.sessions[s] == Sweeping(DueIn(m.books, now) - Those(ids))
  {
    var looked := Step(m, LookUp(s, now));
    if ids == [] {
      assert Dunned(m.books, now, {}).invoices == m.books.invoices && Those(ids) == {};
      assert DueIn(m.books, now) - {} == DueIn(m.books, now);
    } else {
      var n := |ids| - 1;
      MarkedSoFar(m, s, now, ids[..n]);
      OneMore(ids);
      MarkStep(MarkAll(looked, s, ids[..n]), m.books, s, now, Those(ids[..n]), ids[n]);
    }
  }

  /** Left alone, the pieces of a sweep that marks what it looked up do what the whole call does. */
  lemma {:induction false} SweepInPieces(m: Shop, s: nat, now: int, ids: seq<Id>)
    requires Those(ids) == DueIn(m.books, now)
    requires forall j, k :: 0 <= j < k < |ids| ==> ids[j] != ids[k]
    ensures MarkAll(Step(m, LookUp(s, now)), s, ids).books == Apply(m.books, Dun(now, DueIn(m.books, now)))
  {
    forall k | 0 <= k < |ids|
      ensures ids[k] in DueIn(m.books, now)
    {
      assert ids[k] in Those(ids);
    }
    MarkedSoFar(m, s, now, ids);
  }
}
