/**
 User registration: five steps over a users table that many registration sagas share.  Each saga
 advances one step call at a time, in any interleaving, and every call may fail.
 */
module Registration {
  import opened Wrappers
  import opened SagaSpec
  import opened SagaOrder
  import opened SagaMachine

  datatype User = User(email: string, username: string, password: string, name: string, roles: set<Id>)

  type Users = map<Id, User>

  datatype UserEvent = Created(id: Id, saga: nat, user: User) | Deleted(id: Id, saga: nat)

  /** What the outside world decides about the next call: whether it fails, the hash it computes
      and the id a new row would get. */
  datatype Fate = Fate(fails: bool, hash: string, newId: Id)

  /** `orphans` keeps the rows whose compensating delete failed; the program does not read it. */
  datatype World = World(users: Users, roles: map<string, Id>, kafkaEnabled: bool,
                         events: seq<UserEvent>, orphans: set<Id>, fate: Fate)

  /** Missing fields are empty strings: the source tests both for truth. */
  datatype Data = Data(email: string, password: string, firstName: string, lastName: string,
                       username: string, roleKey: string)

  datatype Res =
    | Validated
    | Hashed(hashedPassword: string)
    | UserCreated(userId: Id)
    | RoleAssigned(userId: Id, roleId: Id, user: User)
    | EventPublished

  type Results = map<string, Res>

  // ----- Usernames -----

  function BeforeAt(email: string): string {
    if email == "" || email[0] == '@' then "" else [email[0]] + BeforeAt(email[1..])
  }

  predicate Allowed(c: char) {
    'a' <= c <= 'z' || 'A' <= c <= 'Z' || '0' <= c <= '9' || c == '_' || c == '-'
  }

  function Clean(s: string): (r: string)
    ensures forall c :: c in r ==> Allowed(c) && !('A' <= c <= 'Z')
  {
    if s == "" then ""
    else if !Allowed(s[0]) then Clean(s[1..])
    else [if 'A' <= s[0] <= 'Z' then s[0] - 'A' + 'a' else s[0]] + Clean(s[1..])
  }

  /** None where the source throws. */
  function GenerateUsername(email: string): (r: Option<string>)
    ensures r.Some? ==> 0 < |r.value| <= 30 && forall c :: c in r.value ==> Allowed(c) && !('A' <= c <= 'Z')
  {
    var clean := Clean(BeforeAt(email));
    var short := if |clean| > 30 then clean[..30] else clean;
    if short == "" then None else Some(short)
  }

  lemma {:induction false} BeforeAtReads(local: string, domain: string)
    requires '@' !in local
    ensures BeforeAt(local + "@" + domain) == local
  {
    var email := local + "@" + domain;
    if local != "" {
      assert email[1..] == local[1..] + "@" + domain;
      BeforeAtReads(local[1..], domain);
    }
  }

  lemma {:induction false} CleanMeaning(s: string)
    ensures Clean(s) == "" <==> forall c :: c in s ==> !Allowed(c)
    ensures (forall c :: c in s ==> Allowed(c) && !('A' <= c <= 'Z')) ==> Clean(s) == s
  {
    if s != "" {
      CleanMeaning(s[1..]);
      assert s == [s[0]] + s[1..] && s[0] in s;
      assert forall c :: c in s <==> c == s[0] || c in s[1..];
    }
  }

  lemma {:induction false} CleanCapital(k: nat)
    requires k < 26
    ensures Clean([UPPER[k]]) == Clean([LOWER[k]]) == [LOWER[k]]
  {
    assert LOWER[k] as int == 'a' as int + k && UPPER[k] as int == 'A' as int + k;
    assert [UPPER[k]][1..] == "" && [LOWER[k]][1..] == "";
  }

  lemma {:induction false} AllowedAreListed(c: char)
    ensures Allowed(c) ==> c in LOWER || c in UPPER || c in "0123456789_-"
  {
    if 'a' <= c <= 'z' {
      assert LOWER[c as int - 'a' as int] == c;
    } else if 'A' <= c <= 'Z' {
      assert UPPER[c as int - 'A' as int] == c;
    } else if '0' <= c <= '9' {
      assert "0123456789_-"[c as int - '0' as int] == c;
    } else if c == '_' {
      assert "0123456789_-"[10] == c;
    } else if c == '-' {
      assert "0123456789_-"[11] == c;
    }
  }

  /** Cleaning goes letter by letter: capitals become small, and only letters, digits, "_" and "-"
      are kept. */
  lemma {:induction false} CleanLetterwise(a: string, b: string, k: nat, c: char)
    requires k < 26
    ensures Clean("") == "" && Clean(a + b) == Clean(a) + Clean(b)
    ensures Clean([UPPER[k]]) == Clean([LOWER[k]]) == [LOWER[k]]
    ensures c in "0123456789_-" ==> Clean([c]) == [c]
    ensures c !in LOWER && c !in UPPER && c !in "0123456789_-" ==> Clean([c]) == ""
  {
    CleanAppends(a, b);
    CleanCapital(k);
    AllowedAreListed(c);
    assert [c][1..] == "";
  }

  lemma {:induction false} CleanAppends(a: string, b: string)
    ensures Clean(a + b) == Clean(a) + Clean(b)
  {
    if a == "" {
      assert a + b == b;
    } else {
      CleanAppends(a[1..], b);
      assert (a + b)[0] == a[0] && (a + b)[1..] == a[1..] + b;
    }
  }

  /** A username is the cleaned part before the at-sign, cut to 30 characters; it cannot be made
      exactly when nothing before the at-sign is allowed in one; a local part that is already a
      username is kept. */
  lemma {:induction false} UsernameFromEmail(local: string, domain: string)
    requires '@' !in local
    ensures var r := GenerateUsername(local + "@" + domain);
            && (r.None? <==> forall c :: c in local ==> !Allowed(c))
            && (r.Some? ==> r.value <= Clean(local) && (|r.value| == 30 || r.value == Clean(local)))
            && (0 < |local| <= 30 && (forall c :: c in local ==> Allowed(c) && !('A' <= c <= 'Z')) ==> r == Some(local))
  {
    BeforeAtReads(local, domain);
    CleanMeaning(local);
  }

  // ----- The five steps -----

  predicate EmailTaken(users: Users, email: string) {
    exists id :: id in users && users[id].email == email
  }

  predicate UsernameTaken(users: Users, username: string) {
    exists id :: id in users && users[id].username == username
  }

  function ExecValidate(d: Data, w: World): (World, Outcome<Res>) {
    if w.fate.fails then (w, Threw(Because("lookup failed")))
    else if EmailTaken(w.users, d.email) then (w, Threw(Because("user already exists")))
    else (w, Done(Validated))
  }

  function ExecHash(w: World): (World, Outcome<Res>) {
    if w.fate.fails then (w, Threw(Because("hashing failed"))) else (w, Done(Hashed(w.fate.hash)))
  }

  function Or(a: string, b: string): string {
    if a != "" then a else b
  }

  /** Id, email and username are unique columns: a clash makes the insert fail. */
  function ExecCreate(d: Data, w: World, rs: Results): (World, Outcome<Res>) {
    if !("HashPassword" in rs && rs["HashPassword"].Hashed? && rs["HashPassword"].hashedPassword != "") then
      (w, Threw(Because("hashed password not found")))
    else
      var username := if d.username != "" then Some(d.username) else GenerateUsername(d.email);
      if username.None? then (w, Threw(Because("unable to generate username")))
      else if w.fate.fails || w.fate.newId in w.users || EmailTaken(w.users, d.email)
              || UsernameTaken(w.users, username.value) then (w, Threw(Because("insert failed")))
      else
        var user := User(d.email, username.value, rs["HashPassword"].hashedPassword,
                         Or(d.firstName, Or(d.lastName, d.email)), {});
        (w.(users := w.users[w.fate.newId := user]), Done(UserCreated(w.fate.newId)))
  }

  function UndoCreate(w: World, r: Option<Res>): World {
    if !(r.Some? && r.value.UserCreated?) then w
    else
      var id := r.value.userId;
      if id !in w.users then w
      else if w.fate.fails then w.(orphans := w.orphans + {id})
      else w.(users := w.users - {id})
  }

  function ExecAssign(d: Data, w: World, rs: Results): (World, Outcome<Res>) {
    if !("CreateUser" in rs && rs["CreateUser"].UserCreated?) then (w, Threw(Because("user id not found")))
    else
      var userId := rs["CreateUser"].userId;
      var roleKey := Or(d.roleKey, "user");
      if roleKey !in w.roles then (w, Threw(Because("role not found")))
      else if w.fate.fails || userId !in w.users then (w, Threw(Because("update failed")))
      else
        var roleId := w.roles[roleKey];
        var user := w.users[userId].(roles := w.users[userId].roles + {roleId});
        (w.(users := w.users[userId := user]), Done(RoleAssigned(userId, roleId, user)))
  }

  function UndoAssign(w: World, r: Option<Res>): World {
    if !(r.Some? && r.value.RoleAssigned?) || r.value.userId !in w.users || w.fate.fails then w
    else
      var u := w.users[r.value.userId];
      w.(users := w.users[r.value.userId := u.(roles := u.roles - {r.value.roleId})])
  }

  function Publish(w: World, e: UserEvent): World {
    if w.kafkaEnabled then w.(events := w.events + [e]) else w
  }

  function ExecPublish(saga: nat, w: World, rs: Results): (World, Outcome<Res>) {
    if !("AssignRole" in rs && rs["AssignRole"].RoleAssigned?) then (w, Threw(Because("user data not found")))
    else if w.kafkaEnabled && w.fate.fails then (w, Threw(Because("publish failed")))
    else (Publish(w, Created(rs["AssignRole"].userId, saga, rs["AssignRole"].user)), Done(EventPublished))
  }

  function UndoPublish(saga: nat, w: World, rs: Results): World {
    if "AssignRole" in rs && rs["AssignRole"].RoleAssigned? && !w.fate.fails
    then Publish(w, Deleted(rs["AssignRole"].userId, saga)) else w
  }

  function RegStep(saga: nat, d: Data, k: nat): SagaStep<World, Res>
    requires k < 5
  {
    var nothing := (w: World, rs: Results, r: Option<Res>) => (w, None);
    if k == 0 then SagaStep("ValidateUser", 1.0, (w: World, rs: Results) => ExecValidate(d, w), nothing, None, None)
    else if k == 1 then SagaStep("HashPassword", 2.0, (w: World, rs: Results) => ExecHash(w), nothing, None, None)
    else if k == 2 then
      SagaStep("CreateUser", 3.0, (w: World, rs: Results) => ExecCreate(d, w, rs),
               (w: World, rs: Results, r: Option<Res>) => (UndoCreate(w, r), None), None, None)
    else if k == 3 then
      SagaStep("AssignRole", 4.0, (w: World, rs: Results) => ExecAssign(d, w, rs),
               (w: World, rs: Results, r: Option<Res>) => (UndoAssign(w, r), None), None, None)
    else
      SagaStep("PublishEvent", 5.0, (w: World, rs: Results) => ExecPublish(saga, w, rs),
               (w: World, rs: Results, r: Option<Res>) => (UndoPublish(saga, w, rs), None), None, None)
  }

  function RegistrationSteps(saga: nat, d: Data): seq<SagaStep<World, Res>> {
    seq(5, k requires 0 <= k < 5 => RegStep(saga, d, k))
  }

  lemma {:induction false} RegistrationStepsAreSorted(saga: nat, d: Data)
    ensures SortSteps(RegistrationSteps(saga, d)) == RegistrationSteps(saga, d)
  {
    OrderedIsSorted(RegistrationSteps(saga, d));
  }

  // ----- What undoing a step undoes -----

  /** An insert that worked is taken back by its undo, unless the delete fails. */
  lemma {:induction false} CreateUndone(d: Data, w: World, rs: Results, later: Fate)
    ensures var (w', o) := ExecCreate(d, w, rs);
            o.Done? ==> UndoCreate(w'.(fate := later), Some(o.result)).users ==
                        if later.fails then w'.users else w.users
  {
    var (w', o) := ExecCreate(d, w, rs);
    if o.Done? {
      assert w'.users - {w.fate.newId} == w.users;
    }
  }

  /** A role given to a user without it is taken back by the undo, unless the update fails. */
  lemma {:induction false} AssignUndone(d: Data, w: World, rs: Results, later: Fate)
    ensures var (w', o) := ExecAssign(d, w, rs);
            o.Done? && o.result.roleId !in w.users[o.result.userId].roles ==>
              UndoAssign(w'.(fate := later), Some(o.result)).users == if later.fails then w'.users else w.users
  {
    var (w', o) := ExecAssign(d, w, rs);
    if o.Done? {
      var id, role := o.result.userId, o.result.roleId;
      var user := w.users[id];
      if role !in user.roles {
        assert user.roles + {role} - {role} == user.roles;
        assert w.users[id := user.(roles := user.roles + {role})][id := user] == w.users;
      }
    }
  }

  /** Undoing the event would take it back with a "deleted" of the same row, with Kafka and unless
      that fails. */
  lemma {:induction false} PublishUndone(saga: nat, w: World, rs: Results, later: Fate)
    ensures var (w', o) := ExecPublish(saga, w, rs);
            o.Done? ==>
              UndoPublish(saga, w'.(fate := later), rs).events ==
              w'.events + if w.kafkaEnabled && !later.fails then [Deleted(rs["AssignRole"].userId, saga)] else []
  {}

  /** The first step fails exactly when the lookup does or the email is taken; it changes nothing. */
  lemma {:induction false} ValidateRejects(i: nat, d: Data, w: World)
    ensures var (l, w') := Advance(RegistrationSteps(i, d), Start(), w);
            w' == w && (l.error.Some? <==> w.fate.fails || exists id :: id in w.users && w.users[id].email == d.email)
  {
    assert RegistrationSteps(i, d)[0] == RegStep(i, d, 0);
  }

  // ----- Many sagas on one table -----

  datatype System = System(world: World, locals: seq<Local<Res>>)

  /** The scheduler picks a saga and the outside world decides what its next call meets. */
  datatype Turn = Turn(who: nat, fate: Fate)

  function Next(regs: seq<Data>, s: System, t: Turn): (s': System)
    requires |s.locals| == |regs| && t.who < |regs|
    requires forall i :: 0 <= i < |regs| ==> s.locals[i].next <= 5
    ensures |s'.locals| == |regs|
    ensures forall i :: 0 <= i < |regs| ==> s'.locals[i].next <= 5
  {
    var (l, w) := Advance(RegistrationSteps(t.who, regs[t.who]), s.locals[t.who], s.world.(fate := t.fate));
    System(w, s.locals[t.who := l])
  }

  predicate Schedule(regs: seq<Data>, turns: seq<Turn>) {
    forall k :: 0 <= k < |turns| ==> turns[k].who < |regs|
  }

  function Play(regs: seq<Data>, w: World, turns: seq<Turn>): (s: System)
    requires Schedule(regs, turns)
    ensures |s.locals| == |regs|
    ensures forall i :: 0 <= i < |regs| ==> s.locals[i].next <= 5
  {
    if turns == [] then System(w, seq(|regs|, _ => Start()))
    else Next(regs, Play(regs, w, turns[..|turns| - 1]), turns[|turns| - 1])
  }

  // ----- What one saga holds -----

  predicate IsCompleted(l: Local<Res>) {
    l.phase.Ended? && l.error.None?
  }

  /** Results and progress agree; the failing step is the first not completed. */
  predicate Consistent(l: Local<Res>) {
    && l.next <= 5
    && (l.phase.Forward? ==> l.error.None?)
    && (l.phase.Undoing? ==> l.error.Some? && l.next <= 4)
    && (IsCompleted(l) ==> l.next == 5)
    && (l.phase.Ended? && l.error.Some? ==> l.next == 0)
    && (l.next >= 3 ==> "CreateUser" in l.results && l.results["CreateUser"].UserCreated?)
    && (l.next >= 4 ==> "AssignRole" in l.results && l.results["AssignRole"].RoleAssigned?
                        && l.results["AssignRole"].userId == l.results["CreateUser"].userId)
    && (l.phase.Forward? && l.next < 3 ==> "CreateUser" !in l.results)
    && (l.phase.Forward? && l.next < 4 ==> "AssignRole" !in l.results)
  }

  /** The row a saga has created and not yet tried to delete. */
  function Held(l: Local<Res>): Option<Id> {
    if l.next >= 3 && "CreateUser" in l.results && l.results["CreateUser"].UserCreated?
    then Some(l.results["CreateUser"].userId) else None
  }

  predicate HasPublished(l: Local<Res>) {
    !l.phase.Undoing? && l.next == 5
  }

  datatype Effect = Inserts(id: Id) | Rewrites(id: Id) | Deletes(id: Id) | Orphans(id: Id) | Leaves

  /** All that one turn of saga `i` can do to the table, and what the saga holds afterwards. */
  ghost predicate Does(e: Effect, d: Data, l: Local<Res>, w: World, l': Local<Res>, w': World) {
    match e
    case Inserts(id) => Held(l).None? && Held(l') == Some(id) && id !in w.users && !EmailTaken(w.users, d.email)
                        && id in w'.users && w'.users[id].email == d.email && w'.users == w.users[id := w'.users[id]]
                        && w'.orphans == w.orphans
    case Rewrites(id) => Held(l) == Held(l') == Some(id) && id in w.users && id in w'.users
                         && w'.users[id].email == w.users[id].email && w'.users == w.users[id := w'.users[id]]
                         && w'.orphans == w.orphans
    case Deletes(id) => Held(l) == Some(id) && Held(l').None? && w'.users == w.users - {id} && w'.orphans == w.orphans
    case Orphans(id) => Held(l) == Some(id) && Held(l').None? && w'.users == w.users && w'.orphans == w.orphans + {id}
    case Leaves => Held(l') == Held(l) && w'.users == w.users && w'.orphans == w.orphans
  }

  lemma {:induction false} ForwardEffect(i: nat, d: Data, l: Local<Res>, w: World) returns (e: Effect)
    requires Consistent(l) && (Held(l).Some? ==> Held(l).value in w.users) && l.phase.Forward? && l.next < 5
    ensures var (l', w') := Advance(RegistrationSteps(i, d), l, w);
            Consistent(l') && Does(e, d, l, w, l', w') && !e.Orphans?
  {
    var steps := RegistrationSteps(i, d);
    var (l', w') := Advance(steps, l, w);
    assert steps[l.next] == RegStep(i, d, l.next);
    e := if l.next == 2 && l'.phase.Forward? then Inserts(w.fate.newId)
         else if l.next == 3 && l'.phase.Forward? then Rewrites(Held(l).value)
         else Leaves;
  }

  lemma {:induction false} UndoEffect(i: nat, d: Data, l: Local<Res>, w: World) returns (e: Effect)
    requires Consistent(l) && (Held(l).Some? ==> Held(l).value in w.users) && l.phase.Undoing? && l.next > 0
    ensures var (l', w') := Advance(RegistrationSteps(i, d), l, w);
            Consistent(l') && Does(e, d, l, w, l', w') && (e.Orphans? ==> w.fate.fails)
  {
    var steps := RegistrationSteps(i, d);
    assert steps[l.next - 1] == RegStep(i, d, l.next - 1);
    e := if l.next == 4 then Rewrites(Held(l).value)
         else if l.next == 3 then (if w.fate.fails then Orphans(Held(l).value) else Deletes(Held(l).value))
         else Leaves;
  }

  lemma {:induction false} TurnEffect(i: nat, d: Data, l: Local<Res>, w: World) returns (e: Effect)
    requires Consistent(l) && (Held(l).Some? ==> Held(l).value in w.users)
    ensures var (l', w') := Advance(RegistrationSteps(i, d), l, w);
            Consistent(l') && Does(e, d, l, w, l', w') &&
            (e.Orphans? ==> l.phase.Undoing? && w.fate.fails)
  {
    if l.phase.Forward? && l.next < 5 {
      e := ForwardEffect(i, d, l, w);
    } else if l.phase.Undoing? && l.next > 0 {
      e := UndoEffect(i, d, l, w);
    } else {
      e := Leaves;
    }
  }

  lemma {:induction false} TurnPublishes(i: nat, d: Data, l: Local<Res>, w: World)
    requires Consistent(l)
    ensures var (l', w') := Advance(RegistrationSteps(i, d), l, w);
            w'.kafkaEnabled == w.kafkaEnabled &&
            if HasPublished(l') && !HasPublished(l) && w.kafkaEnabled
            then w'.events == w.events + [Created(Held(l').value, i, l'.results["AssignRole"].user)]
            else w'.events == w.events
    ensures var (l', _) := Advance(RegistrationSteps(i, d), l, w);
            HasPublished(l) ==> HasPublished(l')
  {
    var steps := RegistrationSteps(i, d);
    if l.phase.Forward? && l.next < 5 {
      assert steps[l.next] == RegStep(i, d, l.next);
    } else if l.phase.Undoing? && l.next > 0 {
      assert steps[l.next - 1] == RegStep(i, d, l.next - 1);
    }
  }

  /** The saga assigned a role to the row `id` and read it back as `user`, role included. */
  predicate HasAssigned(l: Local<Res>, id: Id, user: User) {
    "AssignRole" in l.results &&
    match l.results["AssignRole"]
    case RoleAssigned(userId, roleId, u) => userId == id && u == user && roleId in user.roles
    case _ => false
  }

  /** The row of a saga whose role assignment stands is the one it read back, role included. */
  predicate RowIsAssigned(l: Local<Res>, users: Users) {
    Consistent(l) && !l.phase.Undoing? && l.next >= 4 ==>
      var id := l.results["CreateUser"].userId;
      id in users && HasAssigned(l, id, users[id])
  }

  lemma {:induction false} TurnKeepsRow(i: nat, d: Data, l: Local<Res>, w: World)
    requires Consistent(l) && RowIsAssigned(l, w.users) && (Held(l).Some? ==> Held(l).value in w.users)
    ensures var (l', w') := Advance(RegistrationSteps(i, d), l, w); RowIsAssigned(l', w'.users)
  {
    var steps := RegistrationSteps(i, d);
    if l.phase.Forward? && l.next < 5 {
      assert steps[l.next] == RegStep(i, d, l.next);
    } else if l.phase.Undoing? && l.next > 0 {
      assert steps[l.next - 1] == RegStep(i, d, l.next - 1);
    }
  }

  // ----- The invariant of the shared table -----

  ghost predicate UniqueEmails(users: Users) {
    forall u, v :: u in users && v in users && u != v ==> users[u].email != users[v].email
  }

  /** Each held row is in the table, belongs to its saga alone and carries its email. */
  ghost predicate Owning(regs: seq<Data>, init: Users, s: System)
    requires |s.locals| == |regs|
  {
    && (forall i :: 0 <= i < |regs| ==> Consistent(s.locals[i]) && RowIsAssigned(s.locals[i], s.world.users))
    && (forall i :: 0 <= i < |regs| && Held(s.locals[i]).Some? ==>
                      var u := Held(s.locals[i]).value;
                      u in s.world.users && u !in init && u !in s.world.orphans
                      && s.world.users[u].email == regs[i].email)
    && (forall i, j :: 0 <= i < j < |regs| && Held(s.locals[i]).Some? ==> Held(s.locals[i]) != Held(s.locals[j]))
  }

  ghost predicate Holder(s: System, u: Id, i: nat) {
    i < |s.locals| && Held(s.locals[i]) == Some(u)
  }

  /** The table is the initial rows, the held rows and the rows whose delete failed. */
  ghost predicate Accounted(init: Users, s: System) {
    && init.Keys <= s.world.users.Keys && (forall u :: u in init ==> s.world.users[u] == init[u])
    && s.world.orphans <= s.world.users.Keys && s.world.orphans !! init.Keys
    && (forall u :: u in s.world.users ==> u in init || u in s.world.orphans || exists i :: Holder(s, u, i))
  }

  ghost predicate Inv(regs: seq<Data>, init: Users, s: System) {
    |s.locals| == |regs| && Owning(regs, init, s) && Accounted(init, s) && UniqueEmails(s.world.users)
  }

  lemma {:induction false} HeldDiffer(regs: seq<Data>, init: Users, s: System, i: nat, j: nat)
    requires |s.locals| == |regs| && Owning(regs, init, s) && i < |regs| && j < |regs| && i != j
    requires Held(s.locals[i]).Some?
    ensures Held(s.locals[i]) != Held(s.locals[j])
  {
    if i < j {
    } else if Held(s.locals[j]).Some? {
      assert Held(s.locals[j]) != Held(s.locals[i]);
    }
  }

  /** A turn of one saga leaves the rows the others hold, and does not take one for itself. */
  lemma {:induction false} OthersKeep(regs: seq<Data>, init: Users, s: System, t: Turn, e: Effect, j: nat)
    requires Inv(regs, init, s) && t.who < |regs| && j < |regs| && j != t.who && Held(s.locals[j]).Some?
    requires var s' := Next(regs, s, t);
             Does(e, regs[t.who], s.locals[t.who], s.world.(fate := t.fate), s'.locals[t.who], s'.world)
    ensures var s', u := Next(regs, s, t), Held(s.locals[j]).value;
            && s'.locals[j] == s.locals[j]
            && u in s'.world.users && s'.world.users[u] == s.world.users[u] && u !in s'.world.orphans
            && Held(s'.locals[t.who]) != Some(u)
  {
    HeldDiffer(regs, init, s, j, t.who);
  }

  lemma {:induction false} RowsKept(regs: seq<Data>, init: Users, s: System, t: Turn, e: Effect, i: nat)
    requires Inv(regs, init, s) && t.who < |regs| && i < |regs|
    requires var s' := Next(regs, s, t);
             Does(e, regs[t.who], s.locals[t.who], s.world.(fate := t.fate), s'.locals[t.who], s'.world)
    requires Consistent(Next(regs, s, t).locals[t.who])
    ensures var s' := Next(regs, s, t);
            && Consistent(s'.locals[i]) && RowIsAssigned(s'.locals[i], s'.world.users)
            && (Held(s'.locals[i]).Some? ==>
                  var u := Held(s'.locals[i]).value;
                  u in s'.world.users && u !in init && u !in s'.world.orphans
                  && s'.world.users[u].email == regs[i].email)
  {
    if i == t.who {
      TurnKeepsRow(t.who, regs[t.who], s.locals[t.who], s.world.(fate := t.fate));
    } else if Held(s.locals[i]).Some? {
      OthersKeep(regs, init, s, t, e, i);
    }
  }

  lemma {:induction false} HeldStayDifferent(regs: seq<Data>, init: Users, s: System, t: Turn, e: Effect,
                                                   i: nat, j: nat)
    requires Inv(regs, init, s) && t.who < |regs| && i < |regs| && j < |regs| && i != j
    requires var s' := Next(regs, s, t);
             Does(e, regs[t.who], s.locals[t.who], s.world.(fate := t.fate), s'.locals[t.who], s'.world)
    requires Held(Next(regs, s, t).locals[i]).Some?
    ensures Held(Next(regs, s, t).locals[i]) != Held(Next(regs, s, t).locals[j])
  {
    if j == t.who {
      OthersKeep(regs, init, s, t, e, i);
    } else if Held(s.locals[j]).Some? {
      if i == t.who {
        OthersKeep(regs, init, s, t, e, j);
      } else {
        HeldDiffer(regs, init, s, i, j);
      }
    }
  }

  lemma {:induction false} OwningKept(regs: seq<Data>, init: Users, s: System, t: Turn, e: Effect)
    requires Inv(regs, init, s) && t.who < |regs|
    requires var s' := Next(regs, s, t);
             Does(e, regs[t.who], s.locals[t.who], s.world.(fate := t.fate), s'.locals[t.who], s'.world)
    requires Consistent(Next(regs, s, t).locals[t.who])
    ensures Owning(regs, init, Next(regs, s, t))
  {
    var s' := Next(regs, s, t);
    forall i | 0 <= i < |regs|
      ensures Consistent(s'.locals[i]) && RowIsAssigned(s'.locals[i], s'.world.users)
      ensures Held(s'.locals[i]).Some? ==>
                var u := Held(s'.locals[i]).value;
                u in s'.world.users && u !in init && u !in s'.world.orphans
                && s'.world.users[u].email == regs[i].email
    {
      RowsKept(regs, init, s, t, e, i);
    }
    forall i, j | 0 <= i < j < |regs| && Held(s'.locals[i]).Some?
      ensures Held(s'.locals[i]) != Held(s'.locals[j])
    {
      HeldStayDifferent(regs, init, s, t, e, i, j);
    }
  }

  /** A row neither initial nor orphaned keeps a holder, or gets the one that inserts it. */
  lemma {:induction false} HolderKept(regs: seq<Data>, init: Users, s: System, t: Turn, e: Effect, u: Id)
    requires |s.locals| == |regs| && t.who < |regs| && forall i :: 0 <= i < |regs| ==> s.locals[i].next <= 5
    requires Accounted(init, s)
    requires var s' := Next(regs, s, t);
             && Does(e, regs[t.who], s.locals[t.who], s.world.(fate := t.fate), s'.locals[t.who], s'.world)
             && u in s'.world.users && u !in init && u !in s'.world.orphans
    ensures exists i :: Holder(Next(regs, s, t), u, i)
  {
    var s' := Next(regs, s, t);
    if u in s.world.users {
      var i: nat :| Holder(s, u, i);
      assert i != t.who ==> s'.locals[i] == s.locals[i];
      assert Holder(s', u, i);
    } else {
      assert Holder(s', u, t.who);
    }
  }

  lemma {:induction false} AccountedKept(regs: seq<Data>, init: Users, s: System, t: Turn, e: Effect)
    requires |s.locals| == |regs| && t.who < |regs| && forall i :: 0 <= i < |regs| ==> s.locals[i].next <= 5
    requires Accounted(init, s)
    requires Held(s.locals[t.who]).Some? ==>
               Held(s.locals[t.who]).value !in init && Held(s.locals[t.who]).value !in s.world.orphans
    requires var s' := Next(regs, s, t);
             Does(e, regs[t.who], s.locals[t.who], s.world.(fate := t.fate), s'.locals[t.who], s'.world)
    ensures Accounted(init, Next(regs, s, t))
  {
    var s' := Next(regs, s, t);
    forall u | u in s'.world.users && u !in init && u !in s'.world.orphans
      ensures exists i :: Holder(s', u, i)
    {
      HolderKept(regs, init, s, t, e, u);
    }
  }

  lemma {:induction false} EmailsStayUnique(d: Data, l: Local<Res>, w: World, l': Local<Res>, w': World, e: Effect)
    requires Does(e, d, l, w, l', w') && UniqueEmails(w.users)
    ensures UniqueEmails(w'.users)
  {}

  lemma {:induction false} InvStep(regs: seq<Data>, init: Users, s: System, t: Turn) returns (e: Effect)
    requires Inv(regs, init, s) && t.who < |regs|
    ensures var s' := Next(regs, s, t);
            Inv(regs, init, s') &&
            Does(e, regs[t.who], s.locals[t.who], s.world.(fate := t.fate), s'.locals[t.who], s'.world) &&
            (e.Orphans? ==> s.locals[t.who].phase.Undoing? && t.fate.fails)
  {
    e := TurnEffect(t.who, regs[t.who], s.locals[t.who], s.world.(fate := t.fate));
    OwningKept(regs, init, s, t, e);
    AccountedKept(regs, init, s, t, e);
    var s' := Next(regs, s, t);
    EmailsStayUnique(regs[t.who], s.locals[t.who], s.world.(fate := t.fate), s'.locals[t.who], s'.world, e);
  }

  /** No turn of one saga, compensating or not, touches a row another saga holds. */
  lemma {:induction false} NoSagaTouchesAnothersRow(regs: seq<Data>, init: Users, s: System, t: Turn, j: nat)
    requires Inv(regs, init, s) && t.who < |regs| && j < |regs| && j != t.who
    requires Held(s.locals[j]).Some?
    ensures var u := Held(s.locals[j]).value;
            var s' := Next(regs, s, t);
            u in s'.world.users && s'.world.users[u] == s.world.users[u]
  {
    var e := InvStep(regs, init, s, t);
    OthersKeep(regs, init, s, t, e, j);
  }

  ghost predicate Fresh(w: World) {
    UniqueEmails(w.users) && w.orphans == {} && w.events == []
  }

  lemma {:induction false} InvAlways(regs: seq<Data>, w: World, turns: seq<Turn>)
    requires Schedule(regs, turns) && Fresh(w)
    ensures Inv(regs, w.users, Play(regs, w, turns))
  {
    if turns != [] {
      var p := turns[..|turns| - 1];
      InvAlways(regs, w, p);
      var _ := InvStep(regs, w.users, Play(regs, w, p), turns[|turns| - 1]);
    }
  }

  // ----- The whole row -----

  /** The hash of the saga's own hashing turn. */
  function HashComputed(regs: seq<Data>, w: World, turns: seq<Turn>, i: nat): Option<string>
    requires Schedule(regs, turns) && i < |regs|
  {
    if turns == [] then None
    else
      var before, t := turns[..|turns| - 1], turns[|turns| - 1];
      var l := Play(regs, w, before).locals[i];
      if t.who == i && l.phase.Forward? && l.next == 1 && !t.fate.fails then Some(t.fate.hash)
      else HashComputed(regs, w, before, i)
  }

  /** The row of a registration: what was asked for, the hash in place of the password, and `roles`. */
  ghost predicate RowFor(d: Data, hash: string, roles: set<Id>, u: User) {
    && u.email == d.email && u.password == hash
    && (if d.username != "" then u.username == d.username else GenerateUsername(d.email) == Some(u.username))
    && u.name == (if d.firstName != "" then d.firstName else if d.lastName != "" then d.lastName else d.email)
    && u.roles == roles
  }

  /** The role asked for, or "user"; none if there is no such role. */
  function RolesAsked(d: Data, roles: map<string, Id>): set<Id> {
    var key := if d.roleKey != "" then d.roleKey else "user";
    if key in roles then {roles[key]} else {}
  }

  function HashStored(l: Local<Res>): Option<string> {
    if "HashPassword" in l.results && l.results["HashPassword"].Hashed?
    then Some(l.results["HashPassword"].hashedPassword) else None
  }

  /** A row held by a saga that goes forward or has completed: without roles until one is assigned. */
  ghost predicate RowSoFar(d: Data, l: Local<Res>, users: Users, roles: map<string, Id>) {
    Held(l).Some? && !l.phase.Undoing? ==>
      && HashStored(l).Some? && Held(l).value in users
      && RowFor(d, HashStored(l).value, if l.next >= 4 then RolesAsked(d, roles) else {}, users[Held(l).value])
      && (l.next >= 4 ==> RolesAsked(d, roles) != {})
  }

  lemma {:induction false} CreateMakesRow(d: Data, w: World, rs: Results)
    ensures var (w', o) := ExecCreate(d, w, rs);
            o.Done? ==>
              && "HashPassword" in rs && rs["HashPassword"].Hashed? && o.result == UserCreated(w.fate.newId)
              && w.fate.newId in w'.users && w'.roles == w.roles
              && RowFor(d, rs["HashPassword"].hashedPassword, {}, w'.users[w.fate.newId])
  {}

  lemma {:induction false} AssignMakesRow(d: Data, w: World, rs: Results, hash: string)
    requires "CreateUser" in rs && rs["CreateUser"].UserCreated? && rs["CreateUser"].userId in w.users
    requires RowFor(d, hash, {}, w.users[rs["CreateUser"].userId])
    ensures var (w', o) := ExecAssign(d, w, rs);
            o.Done? ==>
              && rs["CreateUser"].userId in w'.users && w'.roles == w.roles && RolesAsked(d, w.roles) != {}
              && RowFor(d, hash, RolesAsked(d, w.roles), w'.users[rs["CreateUser"].userId])
  {}

  lemma {:induction false} ForwardKeepsRow(i: nat, d: Data, l: Local<Res>, w: World)
    requires Consistent(l) && RowSoFar(d, l, w.users, w.roles) && (Held(l).Some? ==> Held(l).value in w.users)
    requires l.phase.Forward? && l.next < 5
    ensures var (l', w') := Advance(RegistrationSteps(i, d), l, w);
            RowSoFar(d, l', w'.users, w'.roles) && w'.roles == w.roles
  {
    assert RegistrationSteps(i, d)[l.next] == RegStep(i, d, l.next);
    if l.next == 2 {
      CreateMakesRow(d, w, l.results);
    } else if l.next == 3 {
      AssignMakesRow(d, w, l.results, HashStored(l).value);
    }
  }

  lemma {:induction false} TurnKeepsRowSoFar(i: nat, d: Data, l: Local<Res>, w: World)
    requires Consistent(l) && RowSoFar(d, l, w.users, w.roles) && (Held(l).Some? ==> Held(l).value in w.users)
    ensures var (l', w') := Advance(RegistrationSteps(i, d), l, w);
            RowSoFar(d, l', w'.users, w'.roles) && w'.roles == w.roles
  {
    var steps := RegistrationSteps(i, d);
    if l.phase.Forward? && l.next < 5 {
      ForwardKeepsRow(i, d, l, w);
    } else if l.phase.Undoing? && l.next > 0 {
      assert steps[l.next - 1] == RegStep(i, d, l.next - 1);
    }
  }

  /** Only the hashing turn stores a hash, and its own. */
  lemma {:induction false} TurnKeepsHash(i: nat, d: Data, l: Local<Res>, w: World)
    requires Consistent(l)
    ensures var (l', _) := Advance(RegistrationSteps(i, d), l, w);
            HashStored(l') == if l.phase.Forward? && l.next == 1 && !w.fate.fails then Some(w.fate.hash)
                              else HashStored(l)
  {
    var steps := RegistrationSteps(i, d);
    if l.phase.Forward? && l.next < 5 {
      assert steps[l.next] == RegStep(i, d, l.next);
    } else if l.phase.Undoing? && l.next > 0 {
      assert steps[l.next - 1] == RegStep(i, d, l.next - 1);
    }
  }

  lemma {:induction false} RowsSoFar(regs: seq<Data>, w: World, turns: seq<Turn>, i: nat)
    requires Schedule(regs, turns) && Fresh(w) && i < |regs|
    ensures var s := Play(regs, w, turns);
            && s.world.roles == w.roles && RowSoFar(regs[i], s.locals[i], s.world.users, w.roles)
            && HashStored(s.locals[i]) == HashComputed(regs, w, turns, i)
  {
    if turns != [] {
      var p, t := turns[..|turns| - 1], turns[|turns| - 1];
      var s := Play(regs, w, p);
      RowsSoFar(regs, w, p, i);
      InvAlways(regs, w, p);
      TurnKeepsRoles(t.who, regs[t.who], s.locals[t.who], s.world.(fate := t.fate));
      if t.who == i {
        TurnKeepsRowSoFar(i, regs[i], s.locals[i], s.world.(fate := t.fate));
        TurnKeepsHash(i, regs[i], s.locals[i], s.world.(fate := t.fate));
      } else if Held(s.locals[i]).Some? {
        NoSagaTouchesAnothersRow(regs, w.users, s, t, i);
      }
    }
  }

  lemma {:induction false} TurnKeepsRoles(i: nat, d: Data, l: Local<Res>, w: World)
    requires Consistent(l)
    ensures Advance(RegistrationSteps(i, d), l, w).1.roles == w.roles
  {
    var steps := RegistrationSteps(i, d);
    if l.phase.Forward? && l.next < 5 {
      assert steps[l.next] == RegStep(i, d, l.next);
    } else if l.phase.Undoing? && l.next > 0 {
      assert steps[l.next - 1] == RegStep(i, d, l.next - 1);
    }
  }

  // ----- Usernames stay unique -----

  ghost predicate UniqueUsernames(users: Users) {
    forall u, v :: u in users && v in users && u != v ==> users[u].username != users[v].username
  }

  lemma {:induction false} CreateKeepsUsernames(d: Data, w: World, rs: Results)
    requires UniqueUsernames(w.users)
    ensures UniqueUsernames(ExecCreate(d, w, rs).0.users)
  {}

  lemma {:induction false} AssignKeepsUsernames(d: Data, w: World, rs: Results, r: Option<Res>)
    requires UniqueUsernames(w.users)
    ensures UniqueUsernames(ExecAssign(d, w, rs).0.users) && UniqueUsernames(UndoAssign(w, r).users)
    ensures UniqueUsernames(UndoCreate(w, r).users)
  {}

  lemma {:induction false} TurnKeepsUsernames(i: nat, d: Data, l: Local<Res>, w: World)
    requires Consistent(l) && UniqueUsernames(w.users)
    ensures UniqueUsernames(Advance(RegistrationSteps(i, d), l, w).1.users)
  {
    var steps := RegistrationSteps(i, d);
    if l.phase.Forward? && l.next < 5 {
      assert steps[l.next] == RegStep(i, d, l.next);
      CreateKeepsUsernames(d, w, l.results);
      AssignKeepsUsernames(d, w, l.results, None);
    } else if l.phase.Undoing? && l.next > 0 {
      assert steps[l.next - 1] == RegStep(i, d, l.next - 1);
      AssignKeepsUsernames(d, w, l.results, Lookup(l.results, steps[l.next - 1].name));
    }
  }

  /** No two rows ever share a username, if none did at first. */
  lemma {:induction false} UsernamesStayUnique(regs: seq<Data>, w: World, turns: seq<Turn>)
    requires Schedule(regs, turns) && Fresh(w) && UniqueUsernames(w.users)
    ensures UniqueUsernames(Play(regs, w, turns).world.users)
  {
    if turns != [] {
      var p, t := turns[..|turns| - 1], turns[|turns| - 1];
      var s := Play(regs, w, p);
      UsernamesStayUnique(regs, w, p);
      InvAlways(regs, w, p);
      TurnKeepsUsernames(t.who, regs[t.who], s.locals[t.who], s.world.(fate := t.fate));
    }
  }

  // ----- Once all have ended -----

  ghost predicate AllEnded(s: System) {
    forall i :: 0 <= i < |s.locals| ==> s.locals[i].phase.Ended?
  }

  /** The id a completed saga reported. */
  ghost predicate CompletedWith(s: System, i: nat, u: Id) {
    i < |s.locals| && IsCompleted(s.locals[i]) && "CreateUser" in s.locals[i].results &&
    s.locals[i].results["CreateUser"] == UserCreated(u)
  }

  /** The table is the initial one, unchanged, plus exactly one row per completed saga, plus the
      rows whose compensating delete failed: each completed saga has its row.  Completed sagas have
      distinct ids and emails, none of them an email that was there before, and each has the whole row
      it asked for: with the hash of its own hashing turn for the password, and just the role asked for. */
  lemma {:induction false} ConcurrentRegistrations(regs: seq<Data>, w: World, turns: seq<Turn>)
    requires Schedule(regs, turns) && Fresh(w)
    requires AllEnded(Play(regs, w, turns))
    ensures var s := Play(regs, w, turns);
            && (forall u :: u in s.world.users <==>
                              u in w.users || u in s.world.orphans || exists i :: CompletedWith(s, i, u))
            && (forall u :: u in w.users ==> s.world.users[u] == w.users[u])
            && (forall i :: 0 <= i < |regs| && IsCompleted(s.locals[i]) ==> exists u :: CompletedWith(s, i, u))
            && (forall i: nat, u :: CompletedWith(s, i, u) ==>
                                 u !in w.users && u !in s.world.orphans && s.world.users[u].email == regs[i].email
                                 && HasAssigned(s.locals[i], u, s.world.users[u])
                                 && !EmailTaken(w.users, regs[i].email))
            && (forall i: nat, u :: CompletedWith(s, i, u) ==>
                                 && HashComputed(regs, w, turns, i).Some? && RolesAsked(regs[i], w.roles) != {}
                                 && RowFor(regs[i], HashComputed(regs, w, turns, i).value,
                                           RolesAsked(regs[i], w.roles), s.world.users[u]))
            && (forall i: nat, u, j: nat, v :: CompletedWith(s, i, u) && CompletedWith(s, j, v) && i != j ==>
                                       u != v && regs[i].email != regs[j].email)
  {
    InvAlways(regs, w, turns);
    var s := Play(regs, w, turns);
    forall i: nat, u | CompletedWith(s, i, u)
      ensures Held(s.locals[i]) == Some(u)
      ensures HashComputed(regs, w, turns, i).Some? && RolesAsked(regs[i], w.roles) != {}
      ensures RowFor(regs[i], HashComputed(regs, w, turns, i).value, RolesAsked(regs[i], w.roles), s.world.users[u])
    {
      RowsSoFar(regs, w, turns, i);
    }
    forall i | 0 <= i < |regs| && IsCompleted(s.locals[i])
      ensures exists u :: CompletedWith(s, i, u)
    {
      assert CompletedWith(s, i, s.locals[i].results["CreateUser"].userId);
    }
    forall u | u in s.world.users && u !in w.users && u !in s.world.orphans
      ensures exists i :: CompletedWith(s, i, u)
    {
      var i :| Holder(s, u, i);
      assert CompletedWith(s, i, u);
    }
    forall i: nat, u, j: nat, v | CompletedWith(s, i, u) && CompletedWith(s, j, v) && i != j
      ensures u != v && regs[i].email != regs[j].email
    {
      HeldDiffer(regs, w.users, s, i, j);
    }
  }

  /** No call made while compensating fails. */
  ghost predicate UndosSucceed(regs: seq<Data>, w: World, turns: seq<Turn>)
    requires Schedule(regs, turns)
  {
    forall k :: 0 <= k < |turns| ==>
                  Play(regs, w, turns[..k]).locals[turns[k].who].phase.Undoing? ==> !turns[k].fate.fails
  }

  lemma {:induction false} NoOrphans(regs: seq<Data>, w: World, turns: seq<Turn>)
    requires Schedule(regs, turns) && Fresh(w) && UndosSucceed(regs, w, turns)
    ensures Play(regs, w, turns).world.orphans == {}
  {
    if turns != [] {
      var n := |turns| - 1;
      var p := turns[..n];
      assert UndosSucceed(regs, w, p) by {
        forall k | 0 <= k < |p|
          ensures Play(regs, w, p[..k]).locals[p[k].who].phase.Undoing? ==> !p[k].fate.fails
        {
          assert p[..k] == turns[..k];
        }
      }
      NoOrphans(regs, w, p);
      InvAlways(regs, w, p);
      var e := InvStep(regs, w.users, Play(regs, w, p), turns[n]);
    }
  }

  // ----- Events -----

  function CountFor(events: seq<UserEvent>, saga: nat): nat {
    if events == [] then 0
    else CountFor(events[..|events| - 1], saga) + if events[|events| - 1].saga == saga then 1 else 0
  }

  lemma {:induction false} CountOne(events: seq<UserEvent>, e: UserEvent, saga: nat)
    ensures CountFor(events + [e], saga) == CountFor(events, saga) + if e.saga == saga then 1 else 0
  {
    assert (events + [e])[..|events|] == events;
  }

  /** A saga that has published emitted one event, the "created" of its row; others emitted none. */
  ghost predicate EventsRight(s: System, i: nat) {
    i < |s.locals| &&
    CountFor(s.world.events, i) == (if s.world.kafkaEnabled && HasPublished(s.locals[i]) then 1 else 0) &&
    forall e :: e in s.world.events && e.saga == i ==>
                  HasPublished(s.locals[i]) && e.Created? &&
                  Held(s.locals[i]) == Some(e.id) && HasAssigned(s.locals[i], e.id, e.user)
  }

  /** Once a saga has published it does nothing more to its own record. */
  lemma {:induction false} PublishedStays(i: nat, d: Data, l: Local<Res>, w: World)
    requires Consistent(l) && HasPublished(l)
    ensures var (l', w') := Advance(RegistrationSteps(i, d), l, w);
            HasPublished(l') && l'.results == l.results && w'.events == w.events
  {}

  /** A turn that emits nothing keeps the record right if the saga stays as published as it was. */
  lemma {:induction false} SilentTurn(s: System, s': System, i: nat)
    requires EventsRight(s, i) && i < |s'.locals|
    requires s'.world.events == s.world.events && s'.world.kafkaEnabled == s.world.kafkaEnabled
    requires HasPublished(s'.locals[i]) == HasPublished(s.locals[i]) || !s.world.kafkaEnabled
    requires HasPublished(s.locals[i]) ==> HasPublished(s'.locals[i]) && s'.locals[i].results == s.locals[i].results
    ensures EventsRight(s', i)
  {}

  /** A turn that emits the "created" of one saga's assigned row. */
  lemma {:induction false} CreatedTurn(s: System, s': System, who: nat, e: UserEvent, i: nat)
    requires EventsRight(s, i) && |s'.locals| == |s.locals| && who < |s.locals|
    requires s'.world.events == s.world.events + [e] && s'.world.kafkaEnabled == s.world.kafkaEnabled == true
    requires e.Created? && e.saga == who && !HasPublished(s.locals[who]) && HasPublished(s'.locals[who])
    requires Held(s'.locals[who]) == Some(e.id) && HasAssigned(s'.locals[who], e.id, e.user)
    requires i != who ==> s'.locals[i] == s.locals[i]
    ensures EventsRight(s', i)
  {
    CountOne(s.world.events, e, i);
  }

  lemma {:induction false} EventsStep(regs: seq<Data>, s: System, t: Turn, i: nat)
    requires |s.locals| == |regs| && t.who < |regs| && i < |regs|
    requires (forall j :: 0 <= j < |regs| ==> s.locals[j].next <= 5) && Consistent(s.locals[t.who])
    requires var s' := Next(regs, s, t);
             Consistent(s'.locals[t.who]) && RowIsAssigned(s'.locals[t.who], s'.world.users)
    requires EventsRight(s, i)
    ensures EventsRight(Next(regs, s, t), i) && Next(regs, s, t).world.kafkaEnabled == s.world.kafkaEnabled
  {
    var l, w, s' := s.locals[t.who], s.world.(fate := t.fate), Next(regs, s, t);
    var l' := s'.locals[t.who];
    TurnPublishes(t.who, regs[t.who], l, w);
    if HasPublished(l') && !HasPublished(l) && w.kafkaEnabled {
      CreatedTurn(s, s', t.who, Created(Held(l').value, t.who, l'.results["AssignRole"].user), i);
    } else {
      if HasPublished(l) {
        PublishedStays(t.who, regs[t.who], l, w);
      }
      SilentTurn(s, s', i);
    }
  }

  /** Every event comes from one of the sagas, and without Kafka there is none. */
  lemma {:induction false} EventsHaveSagas(regs: seq<Data>, w: World, turns: seq<Turn>)
    requires Schedule(regs, turns) && Fresh(w)
    ensures var s := Play(regs, w, turns);
            && s.world.kafkaEnabled == w.kafkaEnabled
            && (forall e :: e in s.world.events ==> e.saga < |regs|)
            && (!w.kafkaEnabled ==> s.world.events == [])
  {
    if turns != [] {
      var p, t := turns[..|turns| - 1], turns[|turns| - 1];
      EventsHaveSagas(regs, w, p);
      InvAlways(regs, w, p);
      var s := Play(regs, w, p);
      TurnPublishes(t.who, regs[t.who], s.locals[t.who], s.world.(fate := t.fate));
    }
  }

  /** With Kafka enabled exactly the sagas that went all the way have emitted "created", once each
      and with the row they assigned; a "deleted" is never emitted, nor anything for a saga that does not
      exist; disabled, nothing is. */
  lemma {:induction false} EventsMatchCompletion(regs: seq<Data>, w: World, turns: seq<Turn>)
    requires Schedule(regs, turns) && Fresh(w)
    ensures var s := Play(regs, w, turns);
            && s.world.kafkaEnabled == w.kafkaEnabled
            && (forall i :: 0 <= i < |regs| ==> EventsRight(s, i))
            && (forall i :: 0 <= i < |regs| && s.locals[i].phase.Ended? ==>
                              (HasPublished(s.locals[i]) <==> IsCompleted(s.locals[i])))
            && (forall e :: e in s.world.events ==> e.saga < |regs|)
            && (!w.kafkaEnabled ==> s.world.events == [])
  {
    EventsHaveSagas(regs, w, turns);
    forall i | 0 <= i < |regs|
      ensures EventsRight(Play(regs, w, turns), i)
      ensures var l := Play(regs, w, turns).locals[i]; l.phase.Ended? ==> (HasPublished(l) <==> IsCompleted(l))
    {
      EventsOfOne(regs, w, turns, i);
    }
  }

  lemma {:induction false} EventsOfOne(regs: seq<Data>, w: World, turns: seq<Turn>, i: nat)
    requires Schedule(regs, turns) && Fresh(w) && i < |regs|
    ensures EventsRight(Play(regs, w, turns), i)
    ensures Play(regs, w, turns).world.kafkaEnabled == w.kafkaEnabled
    ensures var l := Play(regs, w, turns).locals[i]; l.phase.Ended? ==> (HasPublished(l) <==> IsCompleted(l))
  {
    InvAlways(regs, w, turns);
    if turns != [] {
      var p := turns[..|turns| - 1];
      EventsOfOne(regs, w, p, i);
      InvAlways(regs, w, p);
      EventsStep(regs, Play(regs, w, p), turns[|turns| - 1], i);
    }
  }

  // ----- Every saga ends -----

  function TurnsOf(turns: seq<Turn>, i: nat): nat {
    if turns == [] then 0
    else TurnsOf(turns[..|turns| - 1], i) + if turns[|turns| - 1].who == i then 1 else 0
  }

  lemma {:induction false} TurnsCount(regs: seq<Data>, w: World, turns: seq<Turn>, i: nat)
    requires Schedule(regs, turns) && i < |regs|
    ensures var l := Play(regs, w, turns).locals[i];
            l.phase.Ended? || PiecesLeft(5, l) + TurnsOf(turns, i) <= 12
  {
    if turns != [] {
      var p, t := turns[..|turns| - 1], turns[|turns| - 1];
      TurnsCount(regs, w, p, i);
      var s := Play(regs, w, p);
      if t.who == i {
        PiecesRunOut(RegistrationSteps(i, regs[i]), s.locals[i], s.world.(fate := t.fate));
      }
    }
  }

  /** A saga has ended after twelve turns of its own, however the others are interleaved with it
      and whatever fails. */
  lemma {:induction false} EverySagaEnds(regs: seq<Data>, w: World, turns: seq<Turn>, i: nat)
    requires Schedule(regs, turns) && i < |regs| && TurnsOf(turns, i) >= 12
    ensures Play(regs, w, turns).locals[i].phase.Ended?
  {
    TurnsCount(regs, w, turns, i);
  }

  // ----- A saga alone -----

  function Alone(f: seq<Fate>): (turns: seq<Turn>)
    ensures |turns| == |f| && forall k :: 0 <= k < |f| ==> turns[k] == Turn(0, f[k])
  {
    seq(|f|, k requires 0 <= k < |f| => Turn(0, f[k]))
  }

  /** What the user asks to be called, or what the email gives. */
  function NameAsked(d: Data): Option<string> {
    if d.username != "" then Some(d.username) else GenerateUsername(d.email)
  }

  /** The first `k` calls of a saga alone go well: no call fails, the email and the username are free,
      the new id is new, and the role exists. */
  ghost predicate Smooth(d: Data, w: World, f: seq<Fate>, k: nat)
    requires k <= 5 <= |f|
  {
    && (k >= 1 ==> !f[0].fails && forall id :: id in w.users ==> w.users[id].email != d.email)
    && (k >= 2 ==> !f[1].fails)
    && (k >= 3 ==> !f[2].fails && f[1].hash != "" && NameAsked(d).Some? && f[2].newId !in w.users &&
                   forall id :: id in w.users ==> w.users[id].username != NameAsked(d).value)
    && (k >= 4 ==> !f[3].fails && RolesAsked(d, w.roles) != {})
    && (k >= 5 ==> w.kafkaEnabled ==> !f[4].fails)
  }

  function RowMade(d: Data, f: seq<Fate>, roles: set<Id>): User
    requires |f| >= 2 && NameAsked(d).Some?
  {
    User(d.email, NameAsked(d).value, f[1].hash,
         if d.firstName != "" then d.firstName else if d.lastName != "" then d.lastName else d.email, roles)
  }

  /** Where such a saga then stands. */
  ghost predicate Stands(d: Data, w: World, f: seq<Fate>, k: nat, s: System)
    requires k <= 5 <= |f|
  {
    && |s.locals| == 1 && s.world.roles == w.roles && s.world.kafkaEnabled == w.kafkaEnabled
    && if !Smooth(d, w, f, k) then s.locals[0].error.Some? && !s.locals[0].phase.Forward?
       else
         var l := s.locals[0];
         && l.phase.Forward? && l.next == k && l.error.None?
         && (k >= 2 ==> HashStored(l) == Some(f[1].hash))
         && (k >= 3 ==> "CreateUser" in l.results && l.results["CreateUser"] == UserCreated(f[2].newId))
         && s.world.users == (if k < 3 then w.users
                              else w.users[f[2].newId := RowMade(d, f, if k < 4 then {} else RolesAsked(d, w.roles))])
         && (k >= 4 ==> HasAssigned(l, f[2].newId, RowMade(d, f, RolesAsked(d, w.roles))))
         && s.world.events == w.events + (if k < 5 || !w.kafkaEnabled then []
                                          else [Created(f[2].newId, 0, RowMade(d, f, RolesAsked(d, w.roles)))])
  }

  lemma {:induction false} StaysFailed(i: nat, d: Data, l: Local<Res>, w: World)
    requires l.next <= 5 && l.error.Some? && !l.phase.Forward?
    ensures var (l', w') := Advance(RegistrationSteps(i, d), l, w);
            l'.error.Some? && !l'.phase.Forward? && w'.roles == w.roles && w'.kafkaEnabled == w.kafkaEnabled
  {
    if l.phase.Undoing? && l.next > 0 {
      assert RegistrationSteps(i, d)[l.next - 1] == RegStep(i, d, l.next - 1);
    }
  }

  lemma {:induction false} AloneEarly(d: Data, w: World, f: seq<Fate>, k: nat, s: System)
    requires k < 2 && 5 <= |f| && Stands(d, w, f, k, s) && s.locals[0].next <= 5 && Smooth(d, w, f, k)
    ensures Stands(d, w, f, k + 1, Next([d], s, Turn(0, f[k])))
  {
    assert RegistrationSteps(0, d)[k] == RegStep(0, d, k);
  }

  lemma {:induction false} AloneCreate(d: Data, w: World, f: seq<Fate>, s: System)
    requires 5 <= |f| && Stands(d, w, f, 2, s) && s.locals[0].next <= 5 && Smooth(d, w, f, 2)
    ensures Stands(d, w, f, 3, Next([d], s, Turn(0, f[2])))
  {
    assert RegistrationSteps(0, d)[2] == RegStep(0, d, 2);
    assert EmailTaken(w.users, d.email) <==> exists id :: id in w.users && w.users[id].email == d.email;
    assert NameAsked(d).Some? ==>
             (UsernameTaken(w.users, NameAsked(d).value) <==>
              exists id :: id in w.users && w.users[id].username == NameAsked(d).value);
  }

  lemma {:induction false} AloneAssign(d: Data, w: World, f: seq<Fate>, s: System)
    requires 5 <= |f| && Stands(d, w, f, 3, s) && s.locals[0].next <= 5 && Smooth(d, w, f, 3)
    ensures Stands(d, w, f, 4, Next([d], s, Turn(0, f[3])))
  {
    assert RegistrationSteps(0, d)[3] == RegStep(0, d, 3);
    var id, before, after := f[2].newId, RowMade(d, f, {}), RowMade(d, f, RolesAsked(d, w.roles));
    assert w.users[id := before][id := after] == w.users[id := after];
    assert {} + RolesAsked(d, w.roles) == RolesAsked(d, w.roles);
  }

  lemma {:induction false} AlonePublish(d: Data, w: World, f: seq<Fate>, s: System)
    requires 5 <= |f| && Stands(d, w, f, 4, s) && s.locals[0].next <= 5 && Smooth(d, w, f, 4)
    ensures Stands(d, w, f, 5, Next([d], s, Turn(0, f[4])))
  {
    assert RegistrationSteps(0, d)[4] == RegStep(0, d, 4);
  }

  lemma {:induction false} AloneStep(d: Data, w: World, f: seq<Fate>, k: nat, s: System)
    requires k < 5 <= |f| && Stands(d, w, f, k, s) && s.locals[0].next <= 5
    ensures Stands(d, w, f, k + 1, Next([d], s, Turn(0, f[k])))
  {
    if !Smooth(d, w, f, k) {
      StaysFailed(0, d, s.locals[0], s.world.(fate := f[k]));
    } else if k < 2 {
      AloneEarly(d, w, f, k, s);
    } else if k == 2 {
      AloneCreate(d, w, f, s);
    } else if k == 3 {
      AloneAssign(d, w, f, s);
    } else {
      AlonePublish(d, w, f, s);
    }
  }

  lemma {:induction false} PlayNext(regs: seq<Data>, w: World, turns: seq<Turn>, t: Turn)
    requires Schedule(regs, turns) && t.who < |regs|
    ensures Schedule(regs, turns + [t])
    ensures Play(regs, w, turns + [t]) == Next(regs, Play(regs, w, turns), t)
  {
    assert (turns + [t])[..|turns|] == turns;
  }

  lemma {:induction false} AloneNext(d: Data, w: World, f: seq<Fate>, k: nat)
    requires k < |f|
    ensures Play([d], w, Alone(f)[..k + 1]) == Next([d], Play([d], w, Alone(f)[..k]), Turn(0, f[k]))
  {
    PlayNext([d], w, Alone(f)[..k], Turn(0, f[k]));
    AlonePrefix(f, k);
  }

  lemma {:induction false} AlonePrefix(f: seq<Fate>, k: nat)
    requires k < |f|
    ensures Alone(f)[..k + 1] == Alone(f)[..k] + [Turn(0, f[k])]
  {
    assert Alone(f)[k] == Turn(0, f[k]);
  }

  lemma {:induction false} AloneStart(d: Data, w: World, f: seq<Fate>)
    requires 5 <= |f|
    ensures Stands(d, w, f, 0, System(w, [Start()]))
    ensures Play([d], w, Alone(f)[..0]) == System(w, [Start()])
  {
    assert Alone(f)[..0] == [];
  }

  /** After `k` turns a saga alone stands where `Stands` says. */
  lemma {:induction false} AloneRun(d: Data, w: World, f: seq<Fate>, k: nat) returns (s: System)
    requires k <= 5 <= |f|
    ensures s == Play([d], w, Alone(f)[..k]) && |s.locals| == 1 && s.locals[0].next <= 5
    ensures Stands(d, w, f, k, s)
  {
    if k == 0 {
      s := System(w, [Start()]);
      AloneStart(d, w, f);
    } else {
      var before := AloneRun(d, w, f, k - 1);
      s := Next([d], before, Turn(0, f[k - 1]));
      AloneNext(d, w, f, k - 1);
      AloneStep(d, w, f, k - 1, before);
    }
  }

  /** A saga that runs alone completes if and only if its calls go well in the sense of `Smooth`; it
      then leaves exactly its one new row and, with Kafka enabled, the event of that row. */
  lemma {:induction false} LoneRegistration(d: Data, w: World, f: seq<Fate>)
    requires |f| == 6
    ensures var s := Play([d], w, Alone(f));
            && (IsCompleted(s.locals[0]) <==> Smooth(d, w, f, 5))
            && (Smooth(d, w, f, 5) ==>
                  var user := RowMade(d, f, RolesAsked(d, w.roles));
                  && s.world.users == w.users[f[2].newId := user]
                  && s.world.events == w.events + if w.kafkaEnabled then [Created(f[2].newId, 0, user)] else [])
  {
    var s := AloneRun(d, w, f, 5);
    AloneNext(d, w, f, 5);
    assert Alone(f)[..6] == Alone(f);
    if !Smooth(d, w, f, 5) {
      StaysFailed(0, d, s.locals[0], s.world.(fate := f[5]));
    }
  }
}
