/**
 The search service's consumer on one topic partition: handle, commit, retry or dead-letter, and
 skip once shutdown has begun.
 */
module KafkaConsumer {
  import opened Wrappers
  import opened JsText

  /** A record of the log; `parses` says whether its value is JSON or absent.  The header, if there
      is one, is a buffer: even an empty one counts as present. */
  datatype Message = Message(offset: nat, parses: bool, retryHeader: Option<string>)

  const MAX_RETRIES := 3

  /** The attempts the header reports; None is NaN.  The consumer never writes this header. */
  function RetryAttempt(m: Message): Option<int> {
    if m.retryHeader.None? then Some(0) else ParseInt(m.retryHeader.value)
  }

  /** NaN is not below the limit: an unreadable header counts as exhausted. */
  predicate CanRetry(m: Message) {
    RetryAttempt(m).Some? && RetryAttempt(m).value < MAX_RETRIES
  }

  /** What one message meets.  `noReason` says that the handler or the commit, if it fails, rejects
      with null or undefined instead of an error. */
  datatype Fate = Fate(handlerThrows: bool, commitFails: bool, noReason: bool, sendFails: bool, finalCommitFails: bool)

  /** The committed offset, and what has been done with each offset so far: `lost` when the
      dead-letter send was attempted and failed, `dropped` when none was attempted. */
  datatype Partition = Partition(committed: nat, handled: set<nat>, noHandler: set<nat>, deadLettered: set<nat>,
                                 lost: set<nat>, dropped: set<nat>)

  const Untouched := Partition(0, {}, {}, {}, {}, {})

  /** How the inner block ends. */
  datatype Try = Fine | Failed(hasReason: bool)

  function TryMessage(p: Partition, hasHandler: bool, m: Message, f: Fate): (Partition, Try) {
    if !m.parses then (p, Failed(true))
    else if hasHandler && f.handlerThrows then (p, Failed(!f.noReason))
    else
      var q := if hasHandler then p.(handled := p.handled + {m.offset}) else p.(noHandler := p.noHandler + {m.offset});
      if f.commitFails then (q, Failed(!f.noReason)) else (q.(committed := m.offset + 1), Fine)
  }

  /** The value is parsed again and the error's message read before the send, all under one catch:
      a value that is not JSON, or an error that is null, ends it without a send. */
  function DeadLetter(p: Partition, m: Message, hasReason: bool, sendFails: bool): Partition {
    if !m.parses || !hasReason then p.(dropped := p.dropped + {m.offset})
    else if sendFails then p.(lost := p.lost + {m.offset})
    else p.(deadLettered := p.deadLettered + {m.offset})
  }

  /** True when `handleMessage` threw, so that the message is delivered again. */
  function Handle(p: Partition, hasHandler: bool, m: Message, f: Fate): (Partition, bool) {
    match TryMessage(p, hasHandler, m, f)
    case (q, Fine) => (q, false)
    case (q, Failed(hasReason)) =>
      if CanRetry(m) then (q, true)
      else
        var sent := DeadLetter(q, m, hasReason, f.sendFails);
        if f.finalCommitFails then (sent, true) else (sent.(committed := m.offset + 1), false)
  }

  class KafkaConsumerService {
    var isShuttingDown: bool
    var hasHandler: bool
    var part: Partition

    constructor (committed: nat)
      ensures !isShuttingDown && !hasHandler && part == Untouched.(committed := committed)
    {
      isShuttingDown, hasHandler, part := false, false, Untouched.(committed := committed);
    }

    method RegisterHandler()
      modifies this`hasHandler
      ensures hasHandler
    {
      hasHandler := true;
    }

    method OnModuleDestroy()
      modifies this`isShuttingDown
      ensures isShuttingDown
    {
      isShuttingDown := true;
    }

    method CommitOffsets(offset: nat, fails: bool) returns (threw: bool)
      modifies this`part
      ensures threw == fails
      ensures part == if fails then old(part) else old(part).(committed := offset)
    {
      if !fails {
        part := part.(committed := offset);
      }
      threw := fails;
    }

    method SendToDeadLetterQueue(m: Message, hasReason: bool, sendFails: bool)
      modifies this`part
      ensures part == DeadLetter(old(part), m, hasReason, sendFails)
    {
      if m.parses && hasReason {
        if sendFails {
          part := part.(lost := part.lost + {m.offset});
        } else {
          part := part.(deadLettered := part.deadLettered + {m.offset});
        }
      } else {
        part := part.(dropped := part.dropped + {m.offset});
      }
    }

    method HandleMessage(m: Message, f: Fate) returns (threw: bool)
      modifies this`part
      ensures (part, threw) == Handle(old(part), hasHandler, m, f)
    {
      var attemptCount := RetryAttempt(m);
      var hasReason := true;
      threw := true;
      if m.parses {
        hasReason := !f.noReason;
        if hasHandler {
          if !f.handlerThrows {
            part := part.(handled := part.handled + {m.offset});
            threw := CommitOffsets(m.offset + 1, f.commitFails);
          }
        } else {
          part := part.(noHandler := part.noHandler + {m.offset});
          threw := CommitOffsets(m.offset + 1, f.commitFails);
        }
      }
      if threw {
        if attemptCount.Some? && attemptCount.value < MAX_RETRIES {
          return true;
        }
        SendToDeadLetterQueue(m, hasReason, f.sendFails);
        threw := CommitOffsets(m.offset + 1, f.finalCommitFails);
      }
    }
  }

  // ----- Runs on one partition -----

  /** `position` is the next record to deliver; `inFlight` while one is being handled, with the
      handler looked up when it was delivered. */
  datatype Consumer = Consumer(part: Partition, position: nat, inFlight: bool, found: bool, shuttingDown: bool,
                               hasHandler: bool, skipped: set<nat>)

  /** Deliver hands the next record over; Finish ends its handling, after any delay; Rewind
      delivers again from the committed offset, as after a failure or a rebalance. */
  datatype Event = Deliver | Finish(fate: Fate) | Rewind | Shutdown | Register

  type Log = seq<Message>

  ghost predicate Increasing(log: Log) {
    forall i, j :: 0 <= i < j < |log| ==> log[i].offset < log[j].offset
  }

  /** The first record at or after an offset. */
  function IndexFrom(log: Log, offset: nat): (i: nat)
    ensures i <= |log|
    ensures forall k :: 0 <= k < i ==> log[k].offset < offset
    ensures i < |log| ==> log[i].offset >= offset
  {
    if log == [] || log[0].offset >= offset then 0 else 1 + IndexFrom(log[1..], offset)
  }

  function Step(log: Log, c: Consumer, e: Event): Consumer {
    match e
    case Deliver =>
      if c.inFlight || c.position >= |log| then c
      else if c.shuttingDown then c.(skipped := c.skipped + {log[c.position].offset}, position := c.position + 1)
      else c.(inFlight := true, found := c.hasHandler)
    case Finish(f) =>
      if !c.inFlight || c.position >= |log| then c
      else
        var (part, threw) := Handle(c.part, c.found, log[c.position], f);
        c.(part := part, inFlight := false, position := if threw then c.position else c.position + 1)
    case Rewind => if c.inFlight then c else c.(position := IndexFrom(log, c.part.committed))
    case Shutdown => c.(shuttingDown := true)
    case Register => c.(hasHandler := true)
  }

  function Begin(log: Log, committed: nat): Consumer {
    Consumer(Untouched.(committed := committed), IndexFrom(log, committed), false, false, false, false, {})
  }

  function Run(log: Log, committed: nat, events: seq<Event>): Consumer {
    if events == [] then Begin(log, committed)
    else Step(log, Run(log, committed, events[..|events| - 1]), events[|events| - 1])
  }

  /** Why an offset may be passed. */
  predicate Accounted(p: Partition, m: Message) {
    || (m.parses && (m.offset in p.handled || m.offset in p.noHandler))
    || (m.parses && !CanRetry(m) && (m.offset in p.deadLettered || m.offset in p.lost))
    || (!CanRetry(m) && m.offset in p.dropped)
  }

  /** What can be on record about a message at all. */
  predicate Recorded(p: Partition, m: Message) {
    && (m.offset in p.handled || m.offset in p.noHandler ==> m.parses)
    && (m.offset in p.deadLettered || m.offset in p.lost ==> m.parses && !CanRetry(m))
    && (m.offset in p.dropped ==> !CanRetry(m))
  }

  ghost predicate Inv(log: Log, start: nat, c: Consumer) {
    && start <= c.part.committed && c.position <= |log|
    && (c.inFlight ==> c.skipped == {} && c.position < |log|)
    && (c.skipped != {} ==> c.shuttingDown)
    && (c.skipped == {} ==> forall i :: 0 <= i < |log| ==> (i < c.position <==> log[i].offset < c.part.committed))
    && (forall i :: 0 <= i < |log| && start <= log[i].offset < c.part.committed ==> Accounted(c.part, log[i]))
    && (forall i :: 0 <= i < |log| ==> Recorded(c.part, log[i]))
    && (forall o :: o in c.skipped ==> o >= c.part.committed)
    && (forall i :: c.position <= i < |log| ==> log[i].offset >= c.part.committed)
  }

  /** The two states say the same about an offset. */
  predicate SameOf(p: Partition, q: Partition, o: nat) {
    && (o in p.handled <==> o in q.handled) && (o in p.noHandler <==> o in q.noHandler)
    && (o in p.deadLettered <==> o in q.deadLettered) && (o in p.lost <==> o in q.lost)
    && (o in p.dropped <==> o in q.dropped)
  }

  lemma {:induction false} HandleEffect(p: Partition, hasHandler: bool, m: Message, f: Fate)
    requires Recorded(p, m)
    ensures var (q, threw) := Handle(p, hasHandler, m, f);
            && Recorded(q, m) && (forall o: nat :: o != m.offset ==> SameOf(p, q, o))
            && q.committed == (if threw then p.committed else m.offset + 1) && (!threw ==> Accounted(q, m))
  {}

  lemma {:induction false} FinishKeeps(log: Log, start: nat, c: Consumer, f: Fate)
    requires Increasing(log) && Inv(log, start, c) && c.inFlight
    ensures Inv(log, start, Step(log, c, Finish(f)))
    ensures Step(log, c, Finish(f)).part.committed >= c.part.committed
  {
    var m := log[c.position];
    var (part, threw) := Handle(c.part, c.found, m, f);
    HandleEffect(c.part, c.found, m, f);
    forall i | 0 <= i < |log|
      ensures log[i].offset == m.offset <==> i == c.position
      ensures log[i].offset <= m.offset <==> i <= c.position
      ensures Recorded(part, log[i])
      ensures start <= log[i].offset < part.committed ==> Accounted(part, log[i])
    {
      if i != c.position {
        assert log[i].offset != m.offset;
        assert SameOf(c.part, part, log[i].offset);
        assert start <= log[i].offset < part.committed ==> log[i].offset < c.part.committed;
      }
    }
  }

  lemma {:induction false} StepKeeps(log: Log, start: nat, c: Consumer, e: Event)
    requires Increasing(log) && Inv(log, start, c)
    ensures Inv(log, start, Step(log, c, e))
    ensures Step(log, c, e).part.committed >= c.part.committed
  {
    if e.Finish? && c.inFlight {
      FinishKeeps(log, start, c, e.fate);
    } else if e.Rewind? && !c.inFlight {
      var k := IndexFrom(log, c.part.committed);
      forall i | k <= i < |log|
        ensures log[i].offset >= c.part.committed
      {
        assert log[k].offset <= log[i].offset;
      }
    }
  }

  lemma {:induction false} InvAlways(log: Log, start: nat, events: seq<Event>)
    requires Increasing(log)
    ensures Inv(log, start, Run(log, start, events))
  {
    if events == [] {
      var k := IndexFrom(log, start);
      forall i | k <= i < |log|
        ensures log[i].offset >= start
      {
        assert log[k].offset <= log[i].offset;
      }
    } else {
      InvAlways(log, start, events[..|events| - 1]);
      StepKeeps(log, start, Run(log, start, events[..|events| - 1]), events[|events| - 1]);
    }
  }

  /** Committed offsets never decrease. */
  lemma {:induction false} CommitsNeverDecrease(log: Log, start: nat, events: seq<Event>, k: nat)
    requires Increasing(log) && k <= |events|
    ensures Run(log, start, events[..k]).part.committed <= Run(log, start, events).part.committed
  {
    if k == |events| {
      assert events[..k] == events;
    } else {
      var p := events[..|events| - 1];
      assert p[..k] == events[..k];
      CommitsNeverDecrease(log, start, p, k);
      InvAlways(log, start, p);
      StepKeeps(log, start, Run(log, start, p), events[|events| - 1]);
    }
  }

  /** Every record below the committed offset was handled, had no handler, was sent to the
      dead-letter topic with an exhausted header and a readable value, or was dropped with an
      exhausted header. */
  lemma {:induction false} OffsetSafety(log: Log, start: nat, events: seq<Event>, i: nat)
    requires Increasing(log) && i < |log| && log[i].offset >= start
    ensures var p := Run(log, start, events).part;
            log[i].offset < p.committed ==> Accounted(p, log[i])
  {
    InvAlways(log, start, events);
  }

  /** What fails in this event fails with an error, not with null or undefined. */
  predicate GivesReason(e: Event) {
    e.Finish? ==> !e.fate.noReason
  }

  lemma {:induction false} DroppedHasCause(log: Log, start: nat, events: seq<Event>, i: nat)
    requires Increasing(log) && i < |log| && log[i].offset in Run(log, start, events).part.dropped
    ensures !log[i].parses || exists k :: 0 <= k < |events| && !GivesReason(events[k])
  {
    if events != [] {
      var last := |events| - 1;
      var before := events[..last];
      if log[i].offset in Run(log, start, before).part.dropped {
        DroppedHasCause(log, start, before, i);
        if k :| 0 <= k < |before| && !GivesReason(before[k]) {
          assert !GivesReason(events[k]);
        }
      } else if log[i].parses {
        InvAlways(log, start, before);
        var c := Run(log, start, before);
        assert log[c.position].offset == log[i].offset;
        assert c.position == i;
        assert !GivesReason(events[last]);
      }
    }
  }

  /** As long as failures carry errors, a record that is passed is dropped exactly when its value
      does not parse: nothing is then left of it anywhere. */
  lemma {:induction false} DroppedIffUnreadable(log: Log, start: nat, events: seq<Event>, i: nat)
    requires Increasing(log) && i < |log| && start <= log[i].offset < Run(log, start, events).part.committed
    requires forall k :: 0 <= k < |events| ==> GivesReason(events[k])
    ensures var p := Run(log, start, events).part;
            && (log[i].offset in p.dropped <==> !log[i].parses)
            && (log[i].offset in p.dropped ==> log[i].offset !in p.handled + p.noHandler + p.deadLettered + p.lost)
  {
    InvAlways(log, start, events);
    if log[i].offset in Run(log, start, events).part.dropped {
      DroppedHasCause(log, start, events, i);
    }
  }

  /** A record that is not JSON and whose header is not a number is dropped on its first delivery. */
  lemma {:induction false} UnreadableRecordIsDropped(f: Fate)
    requires !f.finalCommitFails
    ensures Run([Message(0, false, Some("x"))], 0, [Deliver, Finish(f)]).part ==
            Untouched.(committed := 1, dropped := {0})
  {
    var log, events := [Message(0, false, Some("x"))], [Deliver, Finish(f)];
    assert events[..1] == [Deliver] && events[..1][..0] == [];
    assert Run(log, 0, []) == Begin(log, 0);
    assert Run(log, 0, [Deliver]) == Step(log, Begin(log, 0), Deliver);
    assert ParseInt("x").None? by {
      ParseIntRejects("", "", "x");
      assert "" + ("" + "x") == "x";
    }
  }

  /** No record skipped during shutdown is ever passed by a commit. */
  lemma {:induction false} SkippedIsNotPassed(log: Log, start: nat, events: seq<Event>, o: nat)
    requires Increasing(log) && o in Run(log, start, events).skipped
    ensures Run(log, start, events).part.committed <= o
  {
    InvAlways(log, start, events);
  }

  /** Retries are counted by the header alone, which nothing here increments: however often a
      record with a readable count below the limit fails, it is never dead-lettered, and until a
      handling succeeds or finds no handler it holds the partition where it is. */
  lemma {:induction false} FailingRecordHoldsThePartition(log: Log, start: nat, events: seq<Event>, i: nat)
    requires Increasing(log) && i < |log| && log[i].offset >= start && CanRetry(log[i])
    ensures var p := Run(log, start, events).part;
            log[i].offset !in p.deadLettered + p.lost + p.dropped &&
            (log[i].offset !in p.handled && log[i].offset !in p.noHandler ==> p.committed <= log[i].offset)
  {
    InvAlways(log, start, events);
  }

  /** What one failing attempt does with the record: come again, be sent, or be dropped. */
  lemma {:induction false} FailingAttempt(p: Partition, hasHandler: bool, m: Message, f: Fate)
    requires TryMessage(p, hasHandler, m, f).1.Failed? && m.offset !in p.deadLettered + p.lost + p.dropped
    ensures var (q, threw) := Handle(p, hasHandler, m, f);
            var hasReason := !m.parses || !f.noReason;
            && (m.offset in q.deadLettered + q.lost <==> !CanRetry(m) && m.parses && hasReason)
            && (m.offset in q.deadLettered ==> !f.sendFails)
            && (m.offset in q.dropped <==> !CanRetry(m) && !(m.parses && hasReason))
            && (threw <==> CanRetry(m) || f.finalCommitFails)
            && (q.committed > p.committed ==> m.offset in q.deadLettered + q.lost + q.dropped)
  {}

  /** Run from its own offset, the record is sent to the dead-letter topic. */
  predicate SentIn(log: Log, i: nat, events: seq<Event>)
    requires i < |log|
  {
    log[i].offset in Run(log, log[i].offset, events).part.deadLettered
  }

  /** One failing attempt at an exhausted, readable record. */
  lemma {:induction false} Reaches(log: Log, i: nat) returns (events: seq<Event>)
    requires Increasing(log) && i < |log| && !CanRetry(log[i]) && log[i].parses
    ensures SentIn(log, i, events)
  {
    var start := log[i].offset;
    events := [Register, Deliver, Finish(Fate(true, false, false, false, false))];
    assert events[..2] == [Register, Deliver] && events[..2][..1] == [Register] && events[..2][..1][..0] == [];
    var c0 := Begin(log, start);
    assert c0.position == i;
    assert Run(log, start, []) == c0;
    assert Run(log, start, [Register]) == Step(log, c0, Register);
    assert Run(log, start, [Register, Deliver]) == Step(log, Run(log, start, [Register]), Deliver);
  }

  /** A record can reach the dead-letter topic if and only if its retry header is exhausted as
      written and its value parses; how often it failed plays no part. */
  lemma {:induction false} DeadLetterIff(log: Log, i: nat)
    requires Increasing(log) && i < |log|
    ensures (exists events :: SentIn(log, i, events)) <==> !CanRetry(log[i]) && log[i].parses
  {
    if events :| SentIn(log, i, events) {
      InvAlways(log, log[i].offset, events);
    } else if !CanRetry(log[i]) && log[i].parses {
      var events := Reaches(log, i);
    }
  }

  function Attempts(n: nat, f: Fate): seq<Event> {
    if n == 0 then [Register] else Attempts(n - 1, f) + [Deliver, Finish(f)]
  }

  /** A record without a header whose handler always throws: after any number of attempts the
      consumer stands where it stood. */
  lemma {:induction false} RetriedWithoutEnd(n: nat, f: Fate)
    requires f.handlerThrows
    ensures var log := [Message(0, true, None)];
            Run(log, 0, Attempts(n, f)).part == Untouched && !Run(log, 0, Attempts(n, f)).inFlight &&
            Run(log, 0, Attempts(n, f)).position == 0 && Run(log, 0, Attempts(n, f)).hasHandler &&
            !Run(log, 0, Attempts(n, f)).shuttingDown
  {
    var log, all := [Message(0, true, None)], Attempts(n, f);
    if n == 0 {
      assert all[..0] == [];
      assert Run(log, 0, []) == Begin(log, 0);
    } else {
      RetriedWithoutEnd(n - 1, f);
      var before := Attempts(n - 1, f);
      assert all[..|all| - 1] == before + [Deliver] && (before + [Deliver])[..|before|] == before;
      assert Run(log, 0, before + [Deliver]) == Step(log, Run(log, 0, before), Deliver);
    }
  }

  // ----- Who handled what -----

  /** The limit: a header reading 0, 1 or 2 leaves a try, and so does no header; one reading 3 or
      more, or none at all, leaves none. */
  lemma {:induction false} RetryLimit(offset: nat, parses: bool, digits: string)
    requires AllDigits(digits)
    ensures CanRetry(Message(offset, parses, Some(digits))) <==> DigitsValue(digits) in {0, 1, 2}
    ensures CanRetry(Message(offset, parses, None))
    ensures !CanRetry(Message(offset, parses, Some(""))) && !CanRetry(Message(offset, parses, Some("x")))
  {
    ParseIntReads("", "", digits, "");
    assert "" + ("" + (digits + "")) == digits;
    ParseIntRejects("", "", "");
    ParseIntRejects("", "", "x");
    assert "" + ("" + "") == "" && "" + ("" + "x") == "x";
  }

  /** A handler that works on a readable record: handled, and passed if the commit works too. */
  lemma {:induction false} WorkingAttempt(p: Partition, m: Message, f: Fate)
    requires m.parses && !f.handlerThrows && !f.commitFails
    ensures Handle(p, true, m, f) == (p.(handled := p.handled + {m.offset}, committed := m.offset + 1), false)
    ensures Handle(p, false, m, f) == (p.(noHandler := p.noHandler + {m.offset}, committed := m.offset + 1), false)
  {}

  /** An attempt fails exactly when the value does not parse, the handler throws or the commit fails. */
  lemma {:induction false} FailsIff(p: Partition, hasHandler: bool, m: Message, f: Fate)
    ensures TryMessage(p, hasHandler, m, f).1.Failed? <==>
            !m.parses || (hasHandler && f.handlerThrows) || f.commitFails
    ensures TryMessage(p, hasHandler, m, f).1 == Failed(false) ==> m.parses && f.noReason
  {}

  lemma {:induction false} ShutStep(log: Log, c: Consumer, e: Event)
    requires c.shuttingDown && !c.inFlight
    ensures var c' := Step(log, c, e); c'.part == c.part && c'.shuttingDown && !c'.inFlight
  {}

  lemma {:induction false} RunNext(log: Log, start: nat, events: seq<Event>, e: Event)
    ensures Run(log, start, events + [e]) == Step(log, Run(log, start, events), e)
  {
    assert (events + [e])[..|events|] == events;
  }

  /** Once shutdown has begun and nothing is in flight, nothing is done any more, whatever comes. */
  lemma {:induction false} NothingAfterShutdown(log: Log, start: nat, events: seq<Event>, more: seq<Event>)
    requires Run(log, start, events).shuttingDown && !Run(log, start, events).inFlight
    ensures var c, c' := Run(log, start, events), Run(log, start, events + more);
            c'.part == c.part && c'.shuttingDown && !c'.inFlight
  {
    if more == [] {
      assert events + more == events;
    } else {
      var p, e := more[..|more| - 1], more[|more| - 1];
      NothingAfterShutdown(log, start, events, p);
      RunNext(log, start, events + p, e);
      ShutStep(log, Run(log, start, events + p), e);
      assert events + more == events + p + [e];
    }
  }

  /** Delivery again starts at the first record that is not committed past. */
  lemma {:induction false} RewindRedelivers(log: Log, c: Consumer, i: nat)
    requires Increasing(log) && !c.inFlight && i < |log|
    ensures i < Step(log, c, Rewind).position <==> log[i].offset < c.part.committed
  {
    var k := IndexFrom(log, c.part.committed);
    if k <= i {
      assert log[k].offset <= log[i].offset;
    }
  }

  /** A finished attempt at a record: whether a handler had been registered when it was delivered,
      and what it met. */
  datatype Attempt = Attempt(index: nat, registered: bool, fate: Fate)

  /** Whether a handler had been registered at the last delivery. */
  function RegisteredAtDelivery(log: Log, start: nat, events: seq<Event>): bool {
    if events == [] then false
    else
      var before, last := events[..|events| - 1], events[|events| - 1];
      if last.Deliver? && !Run(log, start, before).inFlight then Register in before
      else RegisteredAtDelivery(log, start, before)
  }

  /** The attempts a run has finished, in order. */
  function AttemptsIn(log: Log, start: nat, events: seq<Event>): seq<Attempt> {
    if events == [] then []
    else
      var before, last := events[..|events| - 1], events[|events| - 1];
      var c := Run(log, start, before);
      AttemptsIn(log, start, before) +
      if last.Finish? && c.inFlight
      then [Attempt(c.position, RegisteredAtDelivery(log, start, before), last.fate)] else []
  }

  lemma {:induction false} StepRegisters(log: Log, c: Consumer, e: Event)
    ensures Step(log, c, e).hasHandler <==> c.hasHandler || e == Register
  {}

  lemma {:induction false} HandlerIsRegistered(log: Log, start: nat, events: seq<Event>)
    ensures Run(log, start, events).hasHandler <==> Register in events
  {
    if events != [] {
      var before, last := events[..|events| - 1], events[|events| - 1];
      HandlerIsRegistered(log, start, before);
      StepRegisters(log, Run(log, start, before), last);
      assert Register in events <==> Register in before || last == Register by {
        assert events == before + [last];
      }
    }
  }

  lemma {:induction false} FoundAtDelivery(log: Log, start: nat, events: seq<Event>)
    ensures Run(log, start, events).inFlight ==>
              Run(log, start, events).found == RegisteredAtDelivery(log, start, events)
  {
    if events != [] {
      var before, last := events[..|events| - 1], events[|events| - 1];
      FoundAtDelivery(log, start, before);
      HandlerIsRegistered(log, start, before);
      assert Run(log, start, events) == Step(log, Run(log, start, before), last);
    }
  }

  /** Among these attempts the handler was there for record `i` and worked. */
  ghost predicate Worked(attempts: seq<Attempt>, i: nat) {
    exists a :: a in attempts && a.index == i && a.registered && !a.fate.handlerThrows
  }

  /** Among these attempts one at record `i` found no handler. */
  ghost predicate Unhandled(attempts: seq<Attempt>, i: nat) {
    exists a :: a in attempts && a.index == i && !a.registered
  }

  lemma {:induction false} OneMore(attempts: seq<Attempt>, a: Attempt, i: nat)
    ensures Worked(attempts + [a], i) <==>
            Worked(attempts, i) || (a.index == i && a.registered && !a.fate.handlerThrows)
    ensures Unhandled(attempts + [a], i) <==> Unhandled(attempts, i) || (a.index == i && !a.registered)
  {
    assert a in attempts + [a];
    assert forall x :: x in attempts + [a] <==> x in attempts || x == a;
  }

  lemma {:induction false} HandleRecords(p: Partition, hasHandler: bool, m: Message, f: Fate, o: nat)
    ensures var (q, _) := Handle(p, hasHandler, m, f);
            && (o in q.handled <==> o in p.handled || (o == m.offset && m.parses && hasHandler && !f.handlerThrows))
            && (o in q.noHandler <==> o in p.noHandler || (o == m.offset && m.parses && !hasHandler))
  {}

  lemma {:induction false} FinishRecords(log: Log, c: Consumer, f: Fate, i: nat)
    requires Increasing(log) && i < |log| && c.inFlight && c.position < |log|
    ensures var q, o, here := Step(log, c, Finish(f)).part, log[i].offset, c.position == i && log[i].parses;
            && (o in q.handled <==> o in c.part.handled || (here && c.found && !f.handlerThrows))
            && (o in q.noHandler <==> o in c.part.noHandler || (here && !c.found))
  {
    HandleRecords(c.part, c.found, log[c.position], f, log[i].offset);
    assert log[c.position].offset == log[i].offset <==> c.position == i;
  }

  /** The partition has on record `i` exactly what these attempts say. */
  ghost predicate RecordsMatch(m: Message, i: nat, p: Partition, attempts: seq<Attempt>) {
    && (m.offset in p.handled <==> m.parses && Worked(attempts, i))
    && (m.offset in p.noHandler <==> m.parses && Unhandled(attempts, i))
  }

  lemma {:induction false} FinishMatches(log: Log, c: Consumer, f: Fate, attempts: seq<Attempt>, i: nat)
    requires Increasing(log) && i < |log| && c.inFlight && c.position < |log|
    requires RecordsMatch(log[i], i, c.part, attempts)
    ensures RecordsMatch(log[i], i, Step(log, c, Finish(f)).part, attempts + [Attempt(c.position, c.found, f)])
  {
    FinishRecords(log, c, f, i);
    OneMore(attempts, Attempt(c.position, c.found, f), i);
  }

  /** A record counts as handled if and only if it is readable and an attempt at it, delivered while
      a handler was registered, had the handler work; as without a handler if and only if it is
      readable and was attempted when none had been registered. */
  lemma {:induction false} HandledIff(log: Log, start: nat, events: seq<Event>, i: nat)
    requires Increasing(log) && i < |log|
    ensures RecordsMatch(log[i], i, Run(log, start, events).part, AttemptsIn(log, start, events))
  {
    if events == [] {
      assert Run(log, start, events) == Begin(log, start);
    } else {
      var before, last := events[..|events| - 1], events[|events| - 1];
      var c, attempts := Run(log, start, before), AttemptsIn(log, start, before);
      HandledIff(log, start, before, i);
      assert Run(log, start, events) == Step(log, c, last);
      if last.Finish? && c.inFlight {
        assert c.position < |log| by {
          InvAlways(log, start, before);
        }
        FoundAtDelivery(log, start, before);
        FinishMatches(log, c, last.fate, attempts, i);
      }
    }
  }

  lemma {:induction false} RegisteredFirst(log: Log, start: nat, events: seq<Event>)
    ensures Register !in events ==> forall a :: a in AttemptsIn(log, start, events) ==> !a.registered
    ensures Register !in events ==> !RegisteredAtDelivery(log, start, events)
    ensures events != [] && events[0] == Register ==>
              (forall a :: a in AttemptsIn(log, start, events) ==> a.registered) &&
              (Run(log, start, events).inFlight ==> RegisteredAtDelivery(log, start, events))
  {
    if events != [] {
      var before, last := events[..|events| - 1], events[|events| - 1];
      RegisteredFirst(log, start, before);
      assert events == before + [last];
      assert Run(log, start, events) == Step(log, Run(log, start, before), last);
      if before == [] {
        assert Run(log, start, before) == Begin(log, start);
      } else {
        assert before[0] == events[0];
      }
    }
  }

  /** With no registration nothing is handled; with one before everything else nothing lacks a
      handler. */
  lemma {:induction false} RegistrationDecides(log: Log, start: nat, events: seq<Event>, i: nat)
    requires Increasing(log) && i < |log|
    ensures Register !in events ==> log[i].offset !in Run(log, start, events).part.handled
    ensures events != [] && events[0] == Register ==> log[i].offset !in Run(log, start, events).part.noHandler
  {
    HandledIff(log, start, events, i);
    RegisteredFirst(log, start, events);
  }
}
