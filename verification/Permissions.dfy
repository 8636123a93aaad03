/**
 Role permissions: a nested record of resources and actions is flattened into table rows and
 grouped back when it is loaded.
 */
module Permissions {
  datatype Row = Row(org: string, role: string, resource: string, action: string)

  /** Rows are unique over all four columns. */
  type Table = set<Row>

  /** `Object.entries` of a permissions record. */
  type Entries = seq<(string, seq<string>)>

  /** The properties every plain object inherits (section 20.1.3 and annex B.2.2 of ECMA-262). */
  const INHERITED: set<string> := {
    "constructor", "hasOwnProperty", "isPrototypeOf", "propertyIsEnumerable", "toLocaleString", "toString",
    "valueOf", "__proto__", "__defineGetter__", "__defineSetter__", "__lookupGetter__", "__lookupSetter__"
  }

  /** `grouped[resource]` finds an inherited property before any own one is set; it is neither
      missing nor an array, so using it throws. */
  datatype Loaded = Loaded(grouped: map<string, seq<string>>) | TypeError

  function Selected(rows: Table, org: string, role: string): Table {
    set r | r in rows && r.org == org && r.role == role
  }

  function RowsOf(org: string, role: string, entries: Entries): Table {
    set e, a | e in entries && a in e.1 :: Row(org, role, e.0, a)
  }

  function Group(records: seq<Row>): Loaded {
    if records == [] then Loaded(map[])
    else
      var r := records[|records| - 1];
      match Group(records[..|records| - 1])
      case TypeError => TypeError
      case Loaded(g) =>
        if r.resource in INHERITED then TypeError
        else
          var actions := if r.resource in g then g[r.resource] else [];
          Loaded(g[r.resource := if r.action in actions then actions else actions + [r.action]])
  }

  class PermissionTable {
    var rows: Table

    constructor (rows: Table)
      ensures this.rows == rows
    {
      this.rows := rows;
    }

    /** The database answers the selected rows in some order. */
    method FindMany(org: string, role: string) returns (found: seq<Row>)
      ensures forall r :: r in found <==> r in Selected(rows, org, role)
    {
      found := [];
      var pending := Selected(rows, org, role);
      while pending != {}
        invariant forall r :: r in Selected(rows, org, role) <==> r in found || r in pending
        decreases pending
      {
        var r :| r in pending;
        found, pending := found + [r], pending - {r};
      }
    }

    method CreateOrganizationRole(org: string, roleName: string, permissions: Entries) returns (count: nat)
      modifies this
      ensures rows == old(rows) + RowsOf(org, roleName, permissions)
      ensures count == |rows| - |old(rows)|
    {
      var permissionRecords: seq<Row> := [];
      for i := 0 to |permissions|
        invariant forall r :: r in permissionRecords <==> r in RowsOf(org, roleName, permissions[..i])
      {
        var (resource, actions) := permissions[i];
        ghost var before := permissionRecords;
        for j := 0 to |actions|
          invariant forall r :: r in permissionRecords <==>
                                  r in before || exists a :: a in actions[..j] && r == Row(org, roleName, resource, a)
        {
          permissionRecords := permissionRecords + [Row(org, roleName, resource, actions[j])];
          assert actions[..j + 1] == actions[..j] + [actions[j]];
        }
        assert actions[..|actions|] == actions;
        assert permissions[..i + 1] == permissions[..i] + [permissions[i]];
      }
      assert permissions[..|permissions|] == permissions;
      var before := rows;
      rows := rows + set r | r in permissionRecords;
      assert rows == before + RowsOf(org, roleName, permissions);
      assert |rows| >= |before| by {
        assert rows == before + (rows - before);
      }
      count := |rows| - |before|;
    }

    /** Two writes without a transaction: if the second throws, the role is left with no rows. */
    method UpdateOrganizationRole(org: string, roleName: string, permissions: Entries,
                                  deleteFails: bool, createFails: bool)
      returns (threw: bool)
      modifies this
      ensures threw <==> deleteFails || createFails
      ensures rows == if deleteFails then old(rows)
                      else Replaced(old(rows), org, roleName, if createFails then [] else permissions)
    {
      if deleteFails {
        return true;
      }
      rows := rows - Selected(rows, org, roleName);
      if createFails {
        assert RowsOf(org, roleName, []) == {};
        return true;
      }
      var _ := CreateOrganizationRole(org, roleName, permissions);
      threw := false;
    }

    method LoadOrganizationRolePermissions(org: string, role: string) returns (loaded: Loaded)
      ensures Answers(loaded, Selected(rows, org, role))
    {
      var permissions := FindMany(org, role);
      GroupMeaning(permissions);
      assert Selected(rows, org, role) == set r | r in permissions;
      var grouped: map<string, seq<string>> := map[];
      for i := 0 to |permissions|
        invariant Group(permissions[..i]) == Loaded(grouped)
      {
        var perm := permissions[i];
        assert permissions[..i + 1][..i] == permissions[..i];
        if perm.resource in INHERITED {
          Poisoned(permissions, i + 1);
          return TypeError;
        }
        if perm.resource !in grouped {
          grouped := grouped[perm.resource := []];
        }
        if perm.action !in grouped[perm.resource] {
          grouped := grouped[perm.resource := grouped[perm.resource] + [perm.action]];
        }
      }
      assert permissions[..|permissions|] == permissions;
      loaded := Loaded(grouped);
    }

    method CheckOrganizationPermission(org: string, roles: seq<string>, resource: string, action: string)
      returns (granted: bool)
      ensures granted <==> exists role :: role in roles && Row(org, role, resource, action) in rows
    {
      for i := 0 to |roles|
        invariant forall role :: role in roles[..i] ==> Row(org, role, resource, action) !in rows
      {
        if Row(org, roles[i], resource, action) in rows {
          return true;
        }
      }
      return false;
    }
  }

  lemma {:induction false} Poisoned(records: seq<Row>, k: nat)
    requires k <= |records| && Group(records[..k]).TypeError?
    ensures Group(records).TypeError?
  {
    if k < |records| {
      var p := records[..|records| - 1];
      assert p[..k] == records[..k];
      Poisoned(p, k);
    } else {
      assert records[..k] == records;
    }
  }

  function Replaced(rows: Table, org: string, role: string, entries: Entries): Table {
    rows - Selected(rows, org, role) + RowsOf(org, role, entries)
  }

  ghost predicate NoDuplicates(s: seq<string>) {
    forall i, j :: 0 <= i < j < |s| ==> s[i] != s[j]
  }

  predicate HasRecord(rows: Table, resource: string, action: string) {
    exists r :: r in rows && r.resource == resource && r.action == action
  }

  /** Per resource exactly the recorded actions, once each, and no empty resource. */
  ghost predicate Groups(g: map<string, seq<string>>, rows: Table) {
    (forall res, a :: HasRecord(rows, res, a) <==> res in g && a in g[res]) &&
    (forall res :: res in g ==> g[res] != [] && NoDuplicates(g[res]))
  }

  /** What loading a set of rows must answer: it throws exactly when some row's resource has an
      inherited name, and otherwise groups the rows. */
  ghost predicate Answers(loaded: Loaded, rows: Table) {
    match loaded
    case TypeError => exists r :: r in rows && r.resource in INHERITED
    case Loaded(g) => Groups(g, rows) && forall r :: r in rows ==> r.resource !in INHERITED
  }

  lemma {:induction false} HasRecordGrows(rows: Table, r: Row, res: string, a: string)
    ensures HasRecord(rows + {r}, res, a) <==> HasRecord(rows, res, a) || (r.resource == res && r.action == a)
  {
    if HasRecord(rows, res, a) {
      var x :| x in rows && x.resource == res && x.action == a;
      assert x in rows + {r};
    }
    assert r in rows + {r};
  }

  lemma {:induction false} GroupsGrow(rows: Table, r: Row, h: map<string, seq<string>>)
    requires Groups(h, rows)
    ensures var actions := if r.resource in h then h[r.resource] else [];
            Groups(h[r.resource := if r.action in actions then actions else actions + [r.action]], rows + {r})
  {
    var actions := if r.resource in h then h[r.resource] else [];
    var added := if r.action in actions then actions else actions + [r.action];
    var g := h[r.resource := added];
    assert forall a :: a in added <==> a in actions || a == r.action;
    forall res, a
      ensures HasRecord(rows + {r}, res, a) <==> res in g && a in g[res]
    {
      HasRecordGrows(rows, r, res, a);
    }
  }

  /** Grouping answers rightly in whatever order the rows come. */
  lemma {:induction false} GroupMeaning(records: seq<Row>)
    ensures Answers(Group(records), set r | r in records)
  {
    if records != [] {
      var p, r := records[..|records| - 1], records[|records| - 1];
      GroupMeaning(p);
      assert records == p + [r];
      assert (set x | x in records) == (set x | x in p) + {r};
      if Group(p).Loaded? {
        GroupsGrow((set x | x in p), r, Group(p).grouped);
      }
    }
  }

  /** The permission record grants the action on the resource. */
  predicate Grants(entries: Entries, resource: string, action: string) {
    exists e :: e in entries && e.0 == resource && action in e.1
  }

  lemma {:induction false} RecordsAfterUpdate(rows: Table, org: string, role: string, entries: Entries,
                                              res: string, a: string)
    ensures HasRecord(Selected(Replaced(rows, org, role, entries), org, role), res, a) <==> Grants(entries, res, a)
  {
    var after := Selected(Replaced(rows, org, role, entries), org, role);
    if Grants(entries, res, a) {
      var e :| e in entries && e.0 == res && a in e.1;
      assert Row(org, role, e.0, a) in after;
    }
  }

  /** After an update, loading gives back exactly the record: for each resource its set of actions,
      each once, resources without actions absent.  It can be loaded if and only if no resource
      that has an action bears an inherited name. */
  lemma {:induction false} RoundTrip(rows: Table, org: string, role: string, entries: Entries, loaded: Loaded)
    requires Answers(loaded, Selected(Replaced(rows, org, role, entries), org, role))
    ensures loaded.Loaded? <==> forall e :: e in entries && e.0 in INHERITED ==> e.1 == []
    ensures loaded.Loaded? ==>
              var g := loaded.grouped;
              (forall res, a :: Grants(entries, res, a) <==> res in g && a in g[res]) &&
              (forall res :: res in g ==> g[res] != [] && NoDuplicates(g[res]))
  {
    var after := Selected(Replaced(rows, org, role, entries), org, role);
    forall res, a
      ensures HasRecord(after, res, a) <==> Grants(entries, res, a)
    {
      RecordsAfterUpdate(rows, org, role, entries, res, a);
    }
    if e :| e in entries && e.0 in INHERITED && e.1 != [] {
      assert Grants(entries, e.0, e.1[0]);
      assert HasRecord(after, e.0, e.1[0]);
    }
  }

  /** An update whose second write throws takes every permission away: the role loads empty. */
  lemma {:induction false} FailedUpdateEmpties(rows: Table, org: string, role: string, loaded: Loaded)
    requires Answers(loaded, Selected(Replaced(rows, org, role, []), org, role))
    ensures loaded == Loaded(map[])
  {
    RoundTrip(rows, org, role, [], loaded);
    KeysAreGranted([], loaded.grouped);
    assert loaded.grouped == map[];
  }

  lemma {:induction false} KeysAreGranted(entries: Entries, g: map<string, seq<string>>)
    requires forall res, a :: Grants(entries, res, a) <==> res in g && a in g[res]
    requires forall res :: res in g ==> g[res] != []
    ensures forall res :: res in g ==> exists a :: Grants(entries, res, a)
  {
    forall res | res in g
      ensures exists a :: Grants(entries, res, a)
    {
      assert g[res][0] in g[res];
      assert Grants(entries, res, g[res][0]);
    }
  }

  /** A resource called "constructor", or like anything else every object has, makes its role
      unreadable. */
  lemma {:induction false} ConstructorCannotBeLoaded(rows: Table, org: string, role: string, name: string,
                                                     loaded: Loaded)
    requires name in ["constructor", "toString", "valueOf", "hasOwnProperty", "isPrototypeOf", "propertyIsEnumerable",
                      "toLocaleString", "__proto__", "__defineGetter__", "__defineSetter__", "__lookupGetter__",
                      "__lookupSetter__"]
    requires Answers(loaded, Selected(Replaced(rows, org, role, [(name, ["read"])]), org, role))
    ensures loaded == TypeError
  {
    var entries := [(name, ["read"])];
    assert (name, ["read"]) in entries && name in INHERITED;
    RoundTrip(rows, org, role, entries, loaded);
  }

  /** Every other role, and every other organization, has the rows it had, so it loads as before. */
  lemma {:induction false} OthersLoadAsBefore(rows: Table, org: string, role: string, entries: Entries,
                                              org': string, role': string)
    requires org' != org || role' != role
    ensures Selected(Replaced(rows, org, role, entries), org', role') == Selected(rows, org', role')
  {}

  /** A permission check agrees with what the user's roles load. */
  lemma {:induction false} CheckAgreesWithLoad(rows: Table, org: string, role: string, loaded: Loaded,
                                               resource: string, action: string)
    requires Answers(loaded, Selected(rows, org, role)) && loaded.Loaded?
    ensures Row(org, role, resource, action) in rows <==>
            resource in loaded.grouped && action in loaded.grouped[resource]
  {
    assert HasRecord(Selected(rows, org, role), resource, action) <==> Row(org, role, resource, action) in rows by {
      if Row(org, role, resource, action) in rows {
        assert Row(org, role, resource, action) in Selected(rows, org, role);
      }
    }
  }
}
