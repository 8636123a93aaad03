/**
 The in-memory saga state store: a table of entries that expire one TTL after they were last
 written.  Expired entries disappear lazily (when read) and in a background sweep.

 The table operations are functions; the class runs them in place.  `Run` plays a whole history
 of calls, and `LastEntry` says what a history means without mentioning expiry, reading or
 sweeping at all.  The refinement theorems connect the two.
 */
module StateStore {
  import opened Wrappers

  /** A value stored under one key of a state object; `Context` stands for the live saga context. */
  datatype Field =
    | Undefined
    | At(ms: int)
    | Text(text: string)
    | Names(names: seq<string>)
    | Context(sagaId: string)

  /** A JavaScript object; spreading `{...a, ...b}` is the map sum `a + b`. */
  type State = map<string, Field>

  datatype StoredState = StoredState(state: State, savedAt: int, expiresAt: int)

  type Table = map<string, StoredState>

  const TTL_MS := 3_600_000

  predicate Expired(s: StoredState, now: int) {
    s.expiresAt < now
  }

  function Cleaned(m: Table, now: int): Table {
    map id | id in m && !Expired(m[id], now) :: m[id]
  }

  function Saved(m: Table, id: string, state: State, now: int): Table {
    m[id := StoredState(state["savedAt" := At(now)], now, now + TTL_MS)]
  }

  function Updated(m: Table, id: string, state: State, now: int): Table {
    if id !in m then Saved(m, id, state, now)
    else m[id := StoredState((m[id].state + state)["updatedAt" := At(now)], m[id].savedAt, now + TTL_MS)]
  }

  /** What `get` answers. */
  function Look(m: Table, id: string, now: int): Option<State> {
    if id in m && !Expired(m[id], now) then Some(m[id].state) else None
  }

  /** What `get` leaves behind: an expired entry is dropped when it is read. */
  function AfterGet(m: Table, id: string, now: int): Table {
    if id in m && Expired(m[id], now) then m - {id} else m
  }

  class SagaStateStore {
    var store: Table

    constructor ()
      ensures store == map[]
    {
      store := map[];
    }

    method CleanupExpiredStates(now: int) returns (cleanedCount: nat)
      modifies this
      ensures store == Cleaned(old(store), now)
      ensures cleanedCount == |old(store)| - |store|
    {
      cleanedCount := 0;
      var pending := store.Keys;
      while pending != {}
        invariant pending <= store.Keys <= old(store).Keys
        invariant forall id :: id in store ==> store[id] == old(store)[id]
        invariant forall id :: id in old(store) && id !in pending ==>
                                 (id in store <==> !Expired(old(store)[id], now))
        invariant cleanedCount == |old(store)| - |store|
        decreases pending
      {
        var sagaId :| sagaId in pending;
        if store[sagaId].expiresAt < now {
          assert (store - {sagaId}).Keys == store.Keys - {sagaId};
          store := store - {sagaId};
          cleanedCount := cleanedCount + 1;
        }
        pending := pending - {sagaId};
      }
    }

    method Save(sagaId: string, state: State, now: int)
      modifies this
      ensures store == Saved(old(store), sagaId, state, now)
    {
      store := store[sagaId := StoredState(state["savedAt" := At(now)], now, now + TTL_MS)];
    }

    method Get(sagaId: string, now: int) returns (state: Option<State>)
      modifies this
      ensures state == Look(old(store), sagaId, now)
      ensures store == AfterGet(old(store), sagaId, now)
    {
      if sagaId !in store {
        return None;
      }
      var stored := store[sagaId];
      if stored.expiresAt < now {
        store := store - {sagaId};
        return None;
      }
      return Some(stored.state);
    }

    method Update(sagaId: string, state: State, now: int)
      modifies this
      ensures store == Updated(old(store), sagaId, state, now)
    {
      if sagaId !in store {
        Save(sagaId, state, now);
        return;
      }
      var stored := store[sagaId];
      store := store[sagaId := StoredState((stored.state + state)["updatedAt" := At(now)],
                                           stored.savedAt, now + TTL_MS)];
    }

    method Delete(sagaId: string)
      modifies this
      ensures store == old(store) - {sagaId}
    {
      store := store - {sagaId};
    }

    method Clear()
      modifies this
      ensures store == map[]
    {
      store := map[];
    }
  }

  // ----- Histories -----

  /** One call on the store, at a moment of its clock.  `Cleanup` is the background sweep. */
  datatype Op =
    | Save(id: string, state: State, at: int)
    | Update(id: string, state: State, at: int)
    | Get(id: string, at: int)
    | Delete(id: string, at: int)
    | Clear(at: int)
    | Cleanup(at: int)

  function Apply(m: Table, op: Op): Table {
    match op
    case Save(id, state, at) => Saved(m, id, state, at)
    case Update(id, state, at) => Updated(m, id, state, at)
    case Get(id, at) => AfterGet(m, id, at)
    case Delete(id, _) => m - {id}
    case Clear(_) => map[]
    case Cleanup(at) => Cleaned(m, at)
  }

  function Run(h: seq<Op>): Table {
    if h == [] then map[] else Apply(Run(h[..|h| - 1]), h[|h| - 1])
  }

  ghost predicate Monotone(h: seq<Op>, now: int) {
    (forall i, j :: 0 <= i < j < |h| ==> h[i].at <= h[j].at) &&
    (forall i :: 0 <= i < |h| ==> h[i].at <= now)
  }

  /** What a history last wrote about a saga: the merged state and the moment of the last write. */
  datatype Entry = Entry(state: State, touched: int)

  /** Reads of the history only its writes: no expiry, no sweep, no effect of reading. */
  function LastEntry(h: seq<Op>, id: string): Option<Entry> {
    if h == [] then None
    else
      var before := LastEntry(h[..|h| - 1], id);
      match h[|h| - 1]
      case Save(x, state, at) =>
        if x == id then Some(Entry(state["savedAt" := At(at)], at)) else before
      case Update(x, state, at) =>
        if x != id then before
        else if before.None? then Some(Entry(state["savedAt" := At(at)], at))
        else Some(Entry((before.value.state + state)["updatedAt" := At(at)], at))
      case Delete(x, _) => if x == id then None else before
      case Clear(_) => None
      case Get(_, _) => before
      case Cleanup(_) => before
  }

  predicate Live(e: Option<Entry>, now: int) {
    e.Some? && e.value.touched + TTL_MS >= now
  }

  /** Every update of `id` finds an entry that has not outlived its TTL, or none was ever left. */
  predicate UpdatesHitLive(h: seq<Op>, id: string) {
    h == [] ||
    var p, op := h[..|h| - 1], h[|h| - 1];
    UpdatesHitLive(p, id) &&
    (op.Update? && op.id == id ==> LastEntry(p, id).None? || Live(LastEntry(p, id), op.at))
  }

  lemma {:induction false} StoreTracks(h: seq<Op>, id: string, now: int)
    requires Monotone(h, now) && UpdatesHitLive(h, id)
    ensures var e := LastEntry(h, id);
            (id in Run(h) ==> e.Some? && Run(h)[id].state == e.value.state
                              && Run(h)[id].expiresAt == e.value.touched + TTL_MS) &&
            (Live(e, now) ==> id in Run(h))
  {
    if h != [] {
      StoreTracks(h[..|h| - 1], id, h[|h| - 1].at);
    }
  }

  /** `get` returns the latest merged state exactly when the last write is at most one TTL old. */
  lemma {:induction false} StoreRefinement(h: seq<Op>, id: string, now: int)
    requires Monotone(h, now) && UpdatesHitLive(h, id)
    ensures var e := LastEntry(h, id);
            Look(Run(h), id, now) == if Live(e, now) then Some(e.value.state) else None
  {
    StoreTracks(h, id, now);
  }

  // ----- Sweeps and reads inserted anywhere -----

  function Writes(h: seq<Op>): seq<Op> {
    if h == [] then []
    else
      var op := h[|h| - 1];
      Writes(h[..|h| - 1]) + (if op.Cleanup? || op.Get? then [] else [op])
  }

  lemma {:induction false} WritesKeepEntries(h: seq<Op>, id: string)
    ensures LastEntry(Writes(h), id) == LastEntry(h, id)
    ensures UpdatesHitLive(Writes(h), id) == UpdatesHitLive(h, id)
  {
    if h != [] {
      var p, op := h[..|h| - 1], h[|h| - 1];
      WritesKeepEntries(p, id);
      var w := Writes(h);
      if op.Cleanup? || op.Get? {
        assert w == Writes(p);
      } else {
        assert w[|w| - 1] == op && w[..|w| - 1] == Writes(p);
      }
    }
  }

  /** Histories with the same writes answer `get` alike, wherever they sweep and read. */
  lemma {:induction false} SweepsAreInvisible(h: seq<Op>, h': seq<Op>, id: string, now: int)
    requires Monotone(h, now) && Monotone(h', now)
    requires Writes(h) == Writes(h')
    requires UpdatesHitLive(h, id)
    ensures Look(Run(h), id, now) == Look(Run(h'), id, now)
  {
    WritesKeepEntries(h, id);
    WritesKeepEntries(h', id);
    StoreRefinement(h, id, now);
    StoreRefinement(h', id, now);
  }

  /** The hypothesis on updates is exact: a sweep just before an update shows in the state it
      leaves if and only if the entry was expired and still in the table. */
  lemma {:induction false} SweepVisibleToUpdate(m: Table, id: string, state: State, now: int)
    requires "updatedAt" !in state
    ensures Updated(Cleaned(m, now), id, state, now)[id].state != Updated(m, id, state, now)[id].state
            <==> id in m && Expired(m[id], now)
  {
    var swept, kept := Updated(Cleaned(m, now), id, state, now)[id].state, Updated(m, id, state, now)[id].state;
    if id in m && Expired(m[id], now) {
      assert "updatedAt" in kept && "updatedAt" !in swept;
    }
  }

  /** The same history with and without a sweep, and what is then read differs. */
  lemma {:induction false} SweepShows(id: string, late: int)
    requires late > TTL_MS
    ensures var a, b := map["context" := Undefined], map["status" := Undefined];
            var plain := Run([Save(id, a, 0), Update(id, b, late)]);
            var swept := Run([Save(id, a, 0), Cleanup(late), Update(id, b, late)]);
            Look(plain, id, late) != Look(swept, id, late)
  {
    var a, b := map["context" := Undefined], map["status" := Undefined];
    var h, g := [Save(id, a, 0), Update(id, b, late)], [Save(id, a, 0), Cleanup(late), Update(id, b, late)];
    var saved := Run([Save(id, a, 0)]);
    assert h[..1] == [Save(id, a, 0)] && h[..1][..0] == [];
    assert g[..2] == [Save(id, a, 0), Cleanup(late)] && g[..2][..1] == [Save(id, a, 0)];
    assert Run(g[..2]) == Cleaned(saved, late);
    assert Run(h) == Updated(saved, id, b, late) && Run(g) == Updated(Cleaned(saved, late), id, b, late);
    SweepVisibleToUpdate(saved, id, b, late);
  }

  /** Writing dates an entry: a save by its own moment, an update of an entry present by the save
      that made it; either way it is to live one hour, and no other entry is touched. */
  lemma {:induction false} WritesDate(m: Table, id: string, other: string, state: State, now: int)
    ensures var a, b := Saved(m, id, state, now), Updated(m, id, state, now);
            && a[id].savedAt == now && a[id].expiresAt == b[id].expiresAt == now + 60 * 60 * 1000
            && b[id].savedAt == (if id in m then m[id].savedAt else now)
            && (other != id ==> (other in a <==> other in m) && (other in b <==> other in m))
            && (other != id && other in m ==> a[other] == b[other] == m[other])
  {}

  /** Reading a saga sweeps it: an expired entry goes, as in a sweep, and no other is touched. */
  lemma {:induction false} GetSweepsItsOwn(m: Table, id: string, other: string, now: int)
    ensures id in AfterGet(m, id, now) <==> id in Cleaned(m, now)
    ensures id in AfterGet(m, id, now) ==> AfterGet(m, id, now)[id] == m[id]
    ensures other != id ==>
              (other in AfterGet(m, id, now) <==> other in m) &&
              (other in m ==> AfterGet(m, id, now)[other] == m[other])
  {}

  /** A sweep keeps exactly the entries whose expiry has not passed, as they are. */
  lemma {:induction false} SweepKeepsLive(m: Table, id: string, now: int)
    ensures id in Cleaned(m, now) <==> id in m && m[id].expiresAt >= now
    ensures id in Cleaned(m, now) ==> Cleaned(m, now)[id] == m[id]
  {}

  // ----- A field that every write sets: `status` -----

  ghost predicate AlwaysWritten(h: seq<Op>, id: string, f: string) {
    forall k :: 0 <= k < |h| && (h[k].Save? || h[k].Update?) && h[k].id == id ==> f in h[k].state
  }

  /** For such a field no hypothesis on updates is needed: merging into an expired entry, or
      into nothing after a sweep, gives the field the same value. */
  lemma {:induction false} FieldTracks(h: seq<Op>, id: string, f: string, now: int)
    requires Monotone(h, now) && AlwaysWritten(h, id, f)
    requires f != "savedAt" && f != "updatedAt"
    ensures var e := LastEntry(h, id);
            (e.Some? ==> f in e.value.state) &&
            (id in Run(h) ==> e.Some? && f in Run(h)[id].state
                              && Run(h)[id].state[f] == e.value.state[f]
                              && Run(h)[id].expiresAt == e.value.touched + TTL_MS) &&
            (Live(e, now) ==> id in Run(h))
  {
    if h != [] {
      FieldTracks(h[..|h| - 1], id, f, h[|h| - 1].at);
    }
  }

  /** `state?.status` of what `get` answers. */
  function StatusAt(m: Table, id: string, now: int): Option<Field> {
    var s := Look(m, id, now);
    if s.Some? && "status" in s.value then Some(s.value["status"]) else None
  }

  /** No call of the history writes or removes the saga `id`. */
  ghost predicate Quiet(h: seq<Op>, id: string) {
    forall k :: 0 <= k < |h| ==>
                  !h[k].Clear? &&
                  (h[k].Save? || h[k].Update? || h[k].Delete? ==> h[k].id != id)
  }

  lemma {:induction false} QuietKeepsEntry(h: seq<Op>, q: seq<Op>, id: string)
    requires Quiet(q, id)
    ensures LastEntry(h + q, id) == LastEntry(h, id)
  {
    if q == [] {
      assert h + q == h;
    } else {
      var p := q[..|q| - 1];
      QuietKeepsEntry(h, p, id);
      assert (h + q)[..|h + q| - 1] == h + p;
    }
  }

  /** While a saga runs, and after it returned, its status is the last one it wrote until one TTL
      has passed, whatever other sagas, sweeps and reads do in between. */
  lemma {:induction false} StatusAgreement(pre: seq<Op>, mid: seq<Op>, post: seq<Op>, id: string,
                        initial: State, t0: int, final: State, t1: int, now: int)
    requires Quiet(pre, id) && Quiet(mid, id) && Quiet(post, id)
    requires "status" in initial && "status" in final
    requires Monotone(pre + [Save(id, initial, t0)] + mid + [Update(id, final, t1)] + post, now)
    ensures var during := pre + [Save(id, initial, t0)] + mid;
            StatusAt(Run(during), id, t1) ==
            if t0 + TTL_MS >= t1 then Some(initial["status"]) else None
    ensures var after := pre + [Save(id, initial, t0)] + mid + [Update(id, final, t1)] + post;
            StatusAt(Run(after), id, now) ==
            if t1 + TTL_MS >= now then Some(final["status"]) else None
  {
    var saved := pre + [Save(id, initial, t0)];
    var during := saved + mid;
    var updated := during + [Update(id, final, t1)];
    var after := updated + post;
    assert saved[..|saved| - 1] == pre;
    assert updated[..|updated| - 1] == during;
    assert after[|during|] == Update(id, final, t1);
    assert after[..|during|] == during;
    assert Monotone(during, t1) by {
      forall i | 0 <= i < |during| ensures during[i] == after[i] {}
    }
    QuietKeepsEntry(saved, mid, id);
    QuietKeepsEntry(updated, post, id);
    FieldTracks(during, id, "status", t1);
    FieldTracks(after, id, "status", now);
  }
}
