// The import plan: which company each account joins, what it signs in with, and what it may do
// (build in cmd/import/plan.go, and cmd/import/mapping.go).
module ImportPlan {
  import opened Prelude
  import opened ImportWalk
  import Identifiers = ImportIdentifiers
  import Strings

  datatype UserRow = UserRow(legacy: string, parent: string, company: Option<nat>, companyLegacy: string, admin: bool,
          staff: bool, role: string, email: Option<string>, username: Option<string>, phone: Option<string>)

  datatype AccessRow = AccessRow(user: string, role: string, permissions: seq<string>)

  datatype Plan = Plan(companies: seq<CompanyRow>, users: seq<UserRow>, access: seq<AccessRow>)

  // The legacy column behind each key of the catalogue; several columns may carry one key.
  type Mapping = map<string, string>

  function KeysHeld(table: Mapping, r: Row): set<string> {
    set column | column in table && column in r.columns :: table[column]
  }

  ghost predicate ListsKeys(keys: seq<string>, held: set<string>) {
    Strings.Sorted(keys) && Strings.Distinct(keys) && Strings.Members(keys) == held
  }

  // The table is walked in no particular order; sorting makes one set of keys one list.
  method LegacyKeysOf(table: Mapping, r: Row) returns (keys: seq<string>)
    ensures ListsKeys(keys, KeysHeld(table, r))
    ensures forall k :: k in keys <==> exists column :: column in table && column in r.columns && table[column] == k
  {
    forall k ensures k in KeysHeld(table, r) <==>
      exists column :: column in table && column in r.columns && table[column] == k
    {
    }
    var seen: set<string>, out: seq<string> := {}, [];
    var todo := table.Keys;
    while todo != {}
      invariant todo <= table.Keys && Strings.Distinct(out) && Strings.Members(out) == seen
      invariant seen == set column | column in table.Keys - todo && column in r.columns :: table[column]
      decreases todo
    {
      var column :| column in todo;
      todo := todo - {column};
      if column in r.columns && table[column] !in seen {
        assert table[column] !in out by {
          assert table[column] !in Strings.Members(out);
        }
        seen := seen + {table[column]};
        out := out + [table[column]];
      }
    }
    keys := Strings.Sort(out);
    Strings.DistinctFromMultiset(out, keys);
    Strings.SameMembers(out, keys);
    forall k ensures k in keys <==> k in KeysHeld(table, r) {
      assert k in keys <==> k in Strings.Members(keys);
    }
  }

  // ---- Roles ----------------------------------------------------------------------------------------------

  predicate HasSuffix(s: string, suffix: string) {
    |s| >= |suffix| && s[|s| - |suffix|..] == suffix
  }

  function CorruptedRole(clean: string): Option<string> {
    if HasSuffix(clean, "manager") then Some("manager")
    else if HasSuffix(clean, "transporter") then Some("transporter")
    else if HasSuffix(clean, "shipper") then Some("shipper")
    else if HasSuffix(clean, "driver") then Some("driver")
    else None
  }

  // The tenant role behind a cleaned, lower-case legacy value, and whether it marks an employee.
  function CanonicalRole(clean: string): (string, bool) {
    if clean in {"shipper", "transporter", "driver", "manager", "merchant", "investor"} then (clean, false)
    else if clean in {"warehousepic", "pic"} then ("warehousePic", false)
    else if clean in {"admin", "superadmin"} then ("admin", true)
    else
      match CorruptedRole(clean)
      case Some(role) => (role, "admin" <= clean)
      case None => ("", false)
  }

  function PlannedRole(clean: string): (string, bool) {
    var (role, staff) := CanonicalRole(clean);
    (if role == "" then "shipper" else role, staff)
  }

  lemma HasSuffixIff(s: string, suffix: string)
    ensures HasSuffix(s, suffix) <==> exists front :: s == front + suffix
  {
    if HasSuffix(s, suffix) {
      assert s == s[..|s| - |suffix|] + suffix;
    }
  }

  // A recognised role is kept, a compound gives its second half, and anything else is a shipper.
  lemma {:induction false} PlannedRoleIs(clean: string)
    ensures
      var role := PlannedRole(clean).0;
      if clean in {"shipper", "transporter", "driver", "manager", "merchant", "investor"} then role == clean
      else if clean == "warehousepic" || clean == "pic" then role == "warehousePic"
      else if clean == "admin" || clean == "superadmin" then role == "admin"
      else if HasSuffix(clean, "manager") then role == "manager"
      else if HasSuffix(clean, "transporter") then role == "transporter"
      else if HasSuffix(clean, "shipper") then role == "shipper"
      else if HasSuffix(clean, "driver") then role == "driver"
      else role == "shipper"
  {
  }

  // Employees are the two plain values, and the compounds that begin like one.
  lemma {:induction false} StaffIff(clean: string)
    ensures PlannedRole(clean).1 <==>
      || clean == "admin" || clean == "superadmin"
      || (&& |clean| > 5 && clean[..5] == "admin"
          && (HasSuffix(clean, "manager") || HasSuffix(clean, "transporter") || HasSuffix(clean, "shipper")
                || HasSuffix(clean, "driver")))
  {
    assert "admin" <= clean <==> |clean| >= 5 && clean[..5] == "admin";
    assert clean in {"shipper", "transporter", "driver", "manager", "merchant", "investor", "warehousepic", "pic"} ==>
      clean[0] != 'a';
  }

  const ADMINISTRATOR := "Administrator"

  // No legacy value, however corrupted, names the role that is granted everything.
  lemma {:induction false} NobodyIsNamedAdministrator(clean: string)
    ensures PlannedRole(clean).0 != "" && PlannedRole(clean).0[0] != ADMINISTRATOR[0]
  {
  }

  // ---- The plan ----------------------------------------------------------------------------------------------

  function CompanyAt(companyOf: map<string, nat>, root: string): (Option<nat>, string) {
    if root in companyOf then (Some(companyOf[root]), root) else (None, "")
  }

  ghost predicate Joins(u: UserRow, r: Row, index: Index, companyOf: map<string, nat>) {
    && u.legacy == r.id && u.parent == r.parent && (u.admin <==> r.parent == "")
    && r.id in index && (u.company, u.companyLegacy) == CompanyAt(companyOf, RootOf(index, r.id))
  }

  function Kept(raw: string, stored: string, keeps: bool): Option<string> {
    if raw != "" && keeps then Some(stored) else None
  }

  ghost predicate Accesses(a: AccessRow, r: Row, table: Mapping, clean: string -> string) {
    && a.user == r.id && a.role == PlannedRole(clean(r.role)).0
    && if r.parent == "" then a.permissions == [] else ListsKeys(a.permissions, KeysHeld(table, r))
  }

  // What the walk, the company pass and the user pass together decide about companies.
  ghost predicate Placed(users: seq<UserRow>, rows: seq<Row>, index: Index, companyOf: map<string, nat>) {
    && IsIndex(index, rows) && IsCompanyOf(companyOf, Tops(rows)) && |users| == |rows|
    && forall i :: 0 <= i < |rows| ==> Joins(users[i], rows[i], index, companyOf)
  }

  // No two accounts sign in with the same thing.
  ghost predicate NoneShared(users: seq<UserRow>) {
    forall i, j :: 0 <= i < j < |users| ==>
      && (users[i].email.Some? ==> users[i].email != users[j].email)
      && (users[i].username.Some? ==> users[i].username != users[j].username)
      && (users[i].phone.Some? ==> users[i].phone != users[j].phone)
  }

  datatype Keeps = Keeps(email: set<string>, username: set<string>, phone: set<string>)

  function Identified(u: UserRow, r: Row, keeps: Keeps, lower: string -> string): UserRow {
    u.(email := Kept(r.email, lower(r.email), r.id in keeps.email),
       username := Kept(r.username, r.username, r.id in keeps.username),
       phone := Kept(r.phone, r.phone, r.id in keeps.phone))
  }

  function Email(lower: string -> string): Row -> string {
    (r: Row) => lower(r.email)
  }

  function Username(lower: string -> string): Row -> string {
    (r: Row) => lower(r.username)
  }

  function Phone(lower: string -> string): Row -> string {
    (r: Row) => lower(r.phone)
  }

  ghost predicate AllResolved(rows: seq<Row>, keeps: Keeps, placeholders: set<string>, lower: string -> string) {
    && Identifiers.Resolved(keeps.email, rows, Email(lower), {})
    && Identifiers.Resolved(keeps.username, rows, Username(lower), {})
    && Identifiers.Resolved(keeps.phone, rows, Phone(lower), placeholders)
  }

  method Resolve(rows: seq<Row>, placeholders: set<string>, lower: string -> string) returns (keeps: Keeps)
    ensures AllResolved(rows, keeps, placeholders, lower)
  {
    var email := Identifiers.ResolveDuplicates(rows, Email(lower), {});
    var username := Identifiers.ResolveDuplicates(rows, Username(lower), {});
    var phone := Identifiers.ResolveDuplicates(rows, Phone(lower), placeholders);
    keeps := Keeps(email, username, phone);
  }

  method Roots(rows: seq<Row>, byLegacy: Index) returns (rootOf: map<string, string>)
    requires forall k :: 0 <= k < |rows| ==> rows[k].id in byLegacy
    ensures forall k :: 0 <= k < |rows| ==> rows[k].id in rootOf
    ensures forall id :: id in rootOf ==> id in byLegacy && rootOf[id] == RootOf(byLegacy, id)
  {
    rootOf := map[];
    for i := 0 to |rows|
      invariant forall k :: 0 <= k < i ==> rows[k].id in rootOf
      invariant forall id :: id in rootOf ==> id in byLegacy && rootOf[id] == RootOf(byLegacy, id)
    {
      var root, _, _ := WalkUp(byLegacy, rows[i].id);
      rootOf := rootOf[rows[i].id := root];
    }
  }

  method Accounts(rows: seq<Row>, table: Mapping, byLegacy: Index, companyOf: map<string, nat>, keeps: Keeps,
          lower: string -> string, clean: string -> string)
    returns (users: seq<UserRow>, access: seq<AccessRow>)
    requires forall k :: 0 <= k < |rows| ==> rows[k].id in byLegacy
    ensures |users| == |access| == |rows|
    ensures forall k :: 0 <= k < |rows| ==> Joins(users[k], rows[k], byLegacy, companyOf)
    ensures forall k :: 0 <= k < |rows| ==> users[k] == Identified(users[k], rows[k], keeps, lower)
    ensures forall k :: 0 <= k < |rows| ==> (users[k].role, users[k].staff) == PlannedRole(clean(rows[k].role))
    ensures forall k :: 0 <= k < |rows| ==> Accesses(access[k], rows[k], table, clean)
  {
    var rootOf := Roots(rows, byLegacy);
    users, access := [], [];
    for i := 0 to |rows|
      invariant |users| == |access| == i
      invariant forall k :: 0 <= k < i ==>
        AccountOf(users[k], access[k], rows[k], rootOf[rows[k].id], table, companyOf, keeps, lower, clean)
    {
      var u, a := Account(rows[i], rootOf[rows[i].id], table, companyOf, keeps, lower, clean);
      users, access := users + [u], access + [a];
    }
  }

  ghost predicate AccountOf(u: UserRow, a: AccessRow, r: Row, root: string, table: Mapping, companyOf: map<string, nat>,
          keeps: Keeps, lower: string -> string, clean: string -> string)
  {
    && u.legacy == r.id && u.parent == r.parent && (u.admin <==> r.parent == "")
    && (u.company, u.companyLegacy) == CompanyAt(companyOf, root)
    && (u.role, u.staff) == PlannedRole(clean(r.role))
    && u == Identified(u, r, keeps, lower)
    && Accesses(a, r, table, clean)
  }

  method Account(r: Row, root: string, table: Mapping, companyOf: map<string, nat>, keeps: Keeps,
          lower: string -> string, clean: string -> string)
    returns (u: UserRow, a: AccessRow)
    ensures AccountOf(u, a, r, root, table, companyOf, keeps, lower, clean)
  {
    var (role, staff) := PlannedRole(clean(r.role));
    var (company, companyLegacy) := CompanyAt(companyOf, root);
    u := UserRow(r.id, r.parent, company, companyLegacy, r.parent == "", staff, role, None, None, None);
    u := Identified(u, r, keeps, lower);
    var permissions := [];
    if r.parent != "" {
      permissions := LegacyKeysOf(table, r);
    }
    a := AccessRow(r.id, role, permissions);
  }

  method Build(rows: seq<Row>, table: Mapping, placeholders: set<string>, lower: string -> string,
          clean: string -> string)
    returns (p: Plan, ghost index: Index, ghost companyOf: map<string, nat>, ghost keeps: Keeps)
    ensures AreCompanies(p.companies, Tops(rows))
    ensures Placed(p.users, rows, index, companyOf)
    ensures AllResolved(rows, keeps, placeholders, lower)
    ensures forall i :: 0 <= i < |rows| ==> p.users[i] == Identified(p.users[i], rows[i], keeps, lower)
    ensures forall i :: 0 <= i < |rows| ==> (p.users[i].role, p.users[i].staff) == PlannedRole(clean(rows[i].role))
    ensures |p.access| == |rows|
    ensures forall i :: 0 <= i < |rows| ==> Accesses(p.access[i], rows[i], table, clean)
  {
    var byLegacy := IndexRows(rows);
    var companies, made := BuildCompanies(rows);
    var kept := Resolve(rows, placeholders, lower);
    var users, access := Accounts(rows, table, byLegacy, made, kept, lower, clean);
    index, companyOf, keeps := byLegacy, made, kept;
    p := Plan(companies, users, access);
  }

  // ---- What it guarantees ----------------------------------------------------------------------------------

  lemma {:induction false} TopsAre(rows: seq<Row>, id: string)
    ensures id in Tops(rows) <==> exists i :: 0 <= i < |rows| && rows[i].id == id && rows[i].parent == ""
  {
    if rows != [] {
      var rest := rows[..|rows| - 1];
      TopsAre(rest, id);
      assert rows == rest + [rows[|rows| - 1]];
      forall i | 0 <= i < |rest| ensures rows[i] == rest[i] {
      }
    }
  }

  lemma {:induction false} TopsDistinct(rows: seq<Row>)
    requires DistinctIds(rows)
    ensures Strings.Distinct(Tops(rows))
  {
    if rows != [] {
      var rest, last := rows[..|rows| - 1], rows[|rows| - 1];
      TopsDistinct(rest);
      TopsAre(rest, last.id);
      assert last.id !in Tops(rest);
    }
  }

  ghost predicate HasTopRow(rows: seq<Row>, id: string) {
    exists i :: 0 <= i < |rows| && rows[i].id == id && rows[i].parent == ""
  }

  lemma {:induction false} CompanyIffTopRow(rows: seq<Row>, companyOf: map<string, nat>, id: string)
    requires IsCompanyOf(companyOf, Tops(rows))
    ensures id in companyOf <==> HasTopRow(rows, id)
  {
    TopsAre(rows, id);
    assert id in companyOf <==> id in Tops(rows);
  }

  // With distinct ids a node has a company of its own exactly when it has no parent.
  lemma {:induction false} CompanyIffTop(rows: seq<Row>, index: Index, companyOf: map<string, nat>, id: string)
    requires DistinctIds(rows) && IsIndex(index, rows) && IsCompanyOf(companyOf, Tops(rows)) && id in index
    ensures id in companyOf <==> index[id].parent == ""
  {
    CompanyIffTopRow(rows, companyOf, id);
    assert IsRowOf(rows, id, index[id]);
    var i :| IsLast(rows, i, id) && index[id] == rows[i];
  }

  lemma {:induction false} IndexedByRow(rows: seq<Row>, index: Index, i: nat)
    requires DistinctIds(rows) && IsIndex(index, rows) && i < |rows|
    ensures index[rows[i].id] == rows[i]
  {
    assert IsRowOf(rows, rows[i].id, index[rows[i].id]);
  }

  // An account and its parent get the same company, or neither gets one.
  lemma {:induction false} SameCompanyAsParent(users: seq<UserRow>, rows: seq<Row>, index: Index,
          companyOf: map<string, nat>, i: nat, j: nat)
    requires DistinctIds(rows) && Placed(users, rows, index, companyOf)
    requires i < |rows| && j < |rows| && rows[i].parent != "" && rows[i].parent == rows[j].id
    ensures users[i].company == users[j].company && users[i].companyLegacy == users[j].companyLegacy
  {
    IndexedByRow(rows, index, i);
    var id, parent := rows[i].id, rows[j].id;
    assert Joins(users[i], rows[i], index, companyOf) && Joins(users[j], rows[j], index, companyOf);
    RootOfStops(index, id, RootOf(index, id));
    RootOfParent(index, id, parent, RootOf(index, id));
    if IsRoot(index, parent, RootOf(index, id)) {
      RootOfStops(index, parent, RootOf(index, id));
    } else {
      RootOfStops(index, parent, parent);
      CompanyIffTop(rows, index, companyOf, id);
      CompanyIffTop(rows, index, companyOf, parent);
      CircularHasParent(index, id, parent);
    }
  }

  lemma {:induction false} SecondAncestor(index: Index, id: string, parent: string)
    requires Up(index, id) == Some(parent)
    ensures parent in index && Ancestor(index, id, 0) == Some(id) && Ancestor(index, id, 1) == Some(parent)
    ensures Ancestor(index, id, 2) == Up(index, parent)
    ensures index[parent].parent == "" ==> id != parent
  {
    assert Ancestor(index, id, 1) == Up(index, id);
  }

  lemma {:induction false} CircularHasParent(index: Index, id: string, parent: string)
    requires Up(index, id) == Some(parent) && IsRoot(index, id, id) && Circular(index, id)
    ensures parent in index && index[parent].parent != ""
  {
    if index[parent].parent == "" {
      SecondAncestor(index, id, parent);
      assert Straight(index, id, 2) by {
        assert Ancestor(index, id, 0) == Some(id);
      }
      NotCircular(index, id, 2);
    }
  }

  // An account gets a company exactly when its chain of parents reaches somebody without one.
  lemma {:induction false} CompanyIffChainReachesATop(users: seq<UserRow>, rows: seq<Row>, index: Index,
          companyOf: map<string, nat>, i: nat)
    requires DistinctIds(rows) && Placed(users, rows, index, companyOf) && i < |rows|
    ensures users[i].company.Some? <==> exists n: nat :: ReachesTop(index, rows[i].id, n)
  {
    assert Joins(users[i], rows[i], index, companyOf);
    RootHasNoParentIff(index, rows[i].id);
    CompanyIffTop(rows, index, companyOf, RootOf(index, rows[i].id));
  }

  // Each company has exactly one administrator: the person it was made from.
  lemma {:induction false} OneAdministratorEach(companies: seq<CompanyRow>, users: seq<UserRow>, rows: seq<Row>,
          index: Index, companyOf: map<string, nat>, t: nat) returns (i: nat)
    requires DistinctIds(rows) && Placed(users, rows, index, companyOf) && AreCompanies(companies, Tops(rows))
    requires t < |companies|
    ensures i < |users| && users[i].admin && users[i].company == Some(companies[t].id)
    ensures users[i].legacy == users[i].companyLegacy == companies[t].legacy
    ensures forall k :: 0 <= k < |users| && users[k].admin && users[k].company == Some(companies[t].id) ==> k == i
  {
    i := TopRow(rows, t);
    AdministratorOf(users, rows, index, companyOf, t, i);
    forall k: nat | k < |users| && users[k].admin && users[k].company == Some(companies[t].id) ensures k == i {
      OnlyAdministrator(users, rows, index, companyOf, t, i, k);
    }
  }

  lemma {:induction false} TopRow(rows: seq<Row>, t: nat) returns (i: nat)
    requires t < |Tops(rows)|
    ensures i < |rows| && rows[i].id == Tops(rows)[t] && rows[i].parent == ""
  {
    TopsAre(rows, Tops(rows)[t]);
    assert Tops(rows)[t] in Tops(rows);
    i :| 0 <= i < |rows| && rows[i].id == Tops(rows)[t] && rows[i].parent == "";
  }

  lemma {:induction false} OnlyAdministrator(users: seq<UserRow>, rows: seq<Row>, index: Index,
          companyOf: map<string, nat>, t: nat, i: nat, k: nat)
    requires DistinctIds(rows) && Placed(users, rows, index, companyOf) && t < |Tops(rows)| && i < |rows| && k < |rows|
    requires rows[i].id == Tops(rows)[t] && users[k].admin && users[k].company == Some(t)
    ensures k == i
  {
    assert Joins(users[k], rows[k], index, companyOf);
    AdministratorOf(users, rows, index, companyOf, t, k);
    assert rows[k].id == rows[i].id;
  }

  lemma {:induction false} AdministratorOf(users: seq<UserRow>, rows: seq<Row>, index: Index,
          companyOf: map<string, nat>, t: nat, k: nat)
    requires DistinctIds(rows) && Placed(users, rows, index, companyOf) && t < |Tops(rows)| && k < |rows|
    requires rows[k].parent == ""
    ensures users[k].admin && users[k].legacy == users[k].companyLegacy == rows[k].id
    ensures users[k].company == Some(t) <==> rows[k].id == Tops(rows)[t]
  {
    AdministratorIsItsOwnRoot(users, rows, index, companyOf, k);
    TopsDistinct(rows);
    assert Joins(users[k], rows[k], index, companyOf);
  }

  lemma {:induction false} AdministratorIsItsOwnRoot(users: seq<UserRow>, rows: seq<Row>, index: Index,
          companyOf: map<string, nat>, k: nat)
    requires DistinctIds(rows) && Placed(users, rows, index, companyOf) && k < |rows| && rows[k].parent == ""
    ensures rows[k].id in companyOf && users[k].company == Some(companyOf[rows[k].id])
    ensures users[k].companyLegacy == rows[k].id
  {
    var id := rows[k].id;
    IndexedByRow(rows, index, k);
    CompanyIffTop(rows, index, companyOf, id);
    assert Joins(users[k], rows[k], index, companyOf);
    TopIsItsOwnRoot(index, id);
  }

  // Ids that repeat break it: a person exported both as a top and below somebody they are above
  // keeps a company their own child does not get.
  lemma {:induction false} RepeatedIdSplitsAFamily(users: seq<UserRow>, rows: seq<Row>, index: Index,
          companyOf: map<string, nat>, x: string, y: string)
    requires x != y && x != "" && y != "" && |rows| == 3 && Placed(users, rows, index, companyOf)
    requires rows[0].id == x && rows[0].parent == ""
    requires rows[1].id == x && rows[1].parent == y
    requires rows[2].id == y && rows[2].parent == x
    ensures users[0].company.Some? && users[2].company.None?
  {
    LastRows(rows, index, x, y);
    TwoCycleRoot(index, x, y);
    TwoCycleRoot(index, y, x);
    assert Joins(users[0], rows[0], index, companyOf) && Joins(users[2], rows[2], index, companyOf);
    CompanyIffTopRow(rows, companyOf, x);
    CompanyIffTopRow(rows, companyOf, y);
    NoTopRow(rows, x, y);
  }

  lemma {:induction false} NoTopRow(rows: seq<Row>, x: string, y: string)
    requires x != y && |rows| == 3 && rows[0].id == rows[1].id == x && rows[2].id == y && rows[2].parent != ""
    ensures !HasTopRow(rows, y)
  {
  }

  lemma {:induction false} LastRows(rows: seq<Row>, index: Index, x: string, y: string)
    requires x != y && |rows| == 3 && IsIndex(index, rows) && rows[0].id == rows[1].id == x && rows[2].id == y
    ensures x in index && y in index && index[x] == rows[1] && index[y] == rows[2]
  {
    assert rows[1].id == x && rows[2].id == y;
    assert IsRowOf(rows, x, index[x]) && IsRowOf(rows, y, index[y]);
  }

  lemma {:induction false} TwoCycleRoot(index: Index, x: string, y: string)
    requires x != y && x in index && y in index && Up(index, x) == Some(y) && Up(index, y) == Some(x)
    ensures RootOf(index, x) == x
  {
    var one := {} + {x};
    var two := one + {y};
    assert Walk(index, x, two) == x && Walk(index, y, one) == x;
  }

  // ---- What people sign in with ------------------------------------------------------------------------------

  // Of the accounts holding one value exactly one carries it, and it is no younger than another
  // holder; empty values and placeholders are carried by nobody.
  ghost predicate OneCarriesEach(rows: seq<Row>, value: Row -> string, placeholders: set<string>, carries: nat -> bool)
  {
    && (forall i: nat :: i < |rows| && carries(i) ==> value(rows[i]) != "" && value(rows[i]) !in placeholders)
    && (forall i: nat, j: nat :: i < |rows| && j < |rows| && carries(i) && value(rows[i]) == value(rows[j]) ==>
          rows[i].created <= rows[j].created && (carries(j) ==> i == j))
    && (forall i: nat :: i < |rows| && value(rows[i]) != "" && value(rows[i]) !in placeholders ==>
          exists k: nat :: k < |rows| && carries(k) && value(rows[k]) == value(rows[i]))
  }

  // Whatever an account signs in with is its own row's: the email lower-cased, the rest as written.
  ghost predicate OwnIdentifiers(u: UserRow, r: Row, lower: string -> string) {
    && (u.email.Some? ==> r.email != "" && u.email == Some(lower(r.email)))
    && (u.username.Some? ==> r.username != "" && u.username == Some(r.username))
    && (u.phone.Some? ==> r.phone != "" && u.phone == Some(r.phone))
  }

  ghost predicate SignsIn(users: seq<UserRow>, rows: seq<Row>, placeholders: set<string>, lower: string -> string)
    requires |users| == |rows|
  {
    && (forall i :: 0 <= i < |rows| ==> OwnIdentifiers(users[i], rows[i], lower))
    && OneCarriesEach(rows, (r: Row) => lower(r.email), {}, (i: nat) => i < |users| && users[i].email.Some?)
    && OneCarriesEach(rows, (r: Row) => lower(r.username), {}, (i: nat) => i < |users| && users[i].username.Some?)
    && OneCarriesEach(rows, (r: Row) => lower(r.phone), placeholders, (i: nat) => i < |users| && users[i].phone.Some?)
  }

  lemma {:induction false} ResolvedCarries(rows: seq<Row>, value: Row -> string, placeholders: set<string>,
          keep: set<string>, carries: nat -> bool)
    requires DistinctIds(rows) && Identifiers.Resolved(keep, rows, value, placeholders)
    requires forall i: nat :: i < |rows| && value(rows[i]) != "" ==> (carries(i) <==> rows[i].id in keep)
    requires forall i: nat :: i < |rows| && carries(i) ==> rows[i].id in keep
    ensures OneCarriesEach(rows, value, placeholders, carries)
  {
    forall i: nat | i < |rows| && carries(i) ensures value(rows[i]) != "" && value(rows[i]) !in placeholders {
      Identifiers.OneAccountKeepsEachValue(rows, value, placeholders, keep, i, i);
    }
    forall i: nat, j: nat | i < |rows| && j < |rows| && carries(i) && value(rows[i]) == value(rows[j])
      ensures rows[i].created <= rows[j].created && (carries(j) ==> i == j)
    {
      Identifiers.OneAccountKeepsEachValue(rows, value, placeholders, keep, i, j);
    }
    forall i: nat | i < |rows| && value(rows[i]) != "" && value(rows[i]) !in placeholders
      ensures exists k: nat :: k < |rows| && carries(k) && value(rows[k]) == value(rows[i])
    {
      var k := Identifiers.SomebodyKeepsIt(rows, value, placeholders, keep, i);
    }
  }

  lemma {:induction false} EmailsCarried(users: seq<UserRow>, rows: seq<Row>, keep: set<string>,
          lower: string -> string)
    requires DistinctIds(rows) && |users| == |rows| && lower("") == ""
    requires Identifiers.Resolved(keep, rows, Email(lower), {})
    requires forall i :: 0 <= i < |rows| ==> (users[i].email.Some? <==> rows[i].email != "" && rows[i].id in keep)
    ensures OneCarriesEach(rows, (r: Row) => lower(r.email), {}, (i: nat) => i < |users| && users[i].email.Some?)
  {
    var carries := (i: nat) => i < |users| && users[i].email.Some?;
    ResolvedCarries(rows, Email(lower), {}, keep, carries);
    CarriesAlike(rows, Email(lower), (r: Row) => lower(r.email), {}, carries);
  }

  lemma {:induction false} UsernamesCarried(users: seq<UserRow>, rows: seq<Row>, keep: set<string>,
          lower: string -> string)
    requires DistinctIds(rows) && |users| == |rows| && lower("") == ""
    requires Identifiers.Resolved(keep, rows, Username(lower), {})
    requires forall i :: 0 <= i < |rows| ==> (users[i].username.Some? <==> rows[i].username != "" && rows[i].id in keep)
    ensures OneCarriesEach(rows, (r: Row) => lower(r.username), {}, (i: nat) => i < |users| && users[i].username.Some?)
  {
    var carries := (i: nat) => i < |users| && users[i].username.Some?;
    ResolvedCarries(rows, Username(lower), {}, keep, carries);
    CarriesAlike(rows, Username(lower), (r: Row) => lower(r.username), {}, carries);
  }

  lemma {:induction false} PhonesCarried(users: seq<UserRow>, rows: seq<Row>, keep: set<string>,
          placeholders: set<string>, lower: string -> string)
    requires DistinctIds(rows) && |users| == |rows| && lower("") == ""
    requires Identifiers.Resolved(keep, rows, Phone(lower), placeholders)
    requires forall i :: 0 <= i < |rows| ==> (users[i].phone.Some? <==> rows[i].phone != "" && rows[i].id in keep)
    ensures OneCarriesEach(rows, (r: Row) => lower(r.phone), placeholders,
      (i: nat) => i < |users| && users[i].phone.Some?)
  {
    var carries := (i: nat) => i < |users| && users[i].phone.Some?;
    ResolvedCarries(rows, Phone(lower), placeholders, keep, carries);
    CarriesAlike(rows, Phone(lower), (r: Row) => lower(r.phone), placeholders, carries);
  }

  // With distinct ids, and a lower-casing that makes nothing out of nothing.
  lemma {:induction false} EverybodySignsIn(users: seq<UserRow>, rows: seq<Row>, keeps: Keeps,
          placeholders: set<string>, lower: string -> string)
    requires DistinctIds(rows) && |users| == |rows| && lower("") == ""
    requires AllResolved(rows, keeps, placeholders, lower)
    requires forall i :: 0 <= i < |rows| ==> users[i] == Identified(users[i], rows[i], keeps, lower)
    ensures SignsIn(users, rows, placeholders, lower)
  {
    forall i | 0 <= i < |rows|
      ensures OwnIdentifiers(users[i], rows[i], lower)
      ensures users[i].email.Some? <==> rows[i].email != "" && rows[i].id in keeps.email
      ensures users[i].username.Some? <==> rows[i].username != "" && rows[i].id in keeps.username
      ensures users[i].phone.Some? <==> rows[i].phone != "" && rows[i].id in keeps.phone
    {
      assert users[i] == Identified(users[i], rows[i], keeps, lower);
    }
    EmailsCarried(users, rows, keeps.email, lower);
    UsernamesCarried(users, rows, keeps.username, lower);
    PhonesCarried(users, rows, keeps.phone, placeholders, lower);
  }

  lemma {:induction false} CarriesAlike(rows: seq<Row>, value: Row -> string, same: Row -> string,
          placeholders: set<string>, carries: nat -> bool)
    requires OneCarriesEach(rows, value, placeholders, carries) && forall r :: value(r) == same(r)
    ensures OneCarriesEach(rows, same, placeholders, carries)
  {
  }

  // So whoever alone holds an email signs in with it.
  lemma {:induction false} SoleHolderKeepsIt(rows: seq<Row>, value: Row -> string, placeholders: set<string>,
          carries: nat -> bool, i: nat)
    requires OneCarriesEach(rows, value, placeholders, carries) && i < |rows|
    requires value(rows[i]) != "" && value(rows[i]) !in placeholders
    requires forall j: nat :: j < |rows| && j != i ==> value(rows[j]) != value(rows[i])
    ensures carries(i)
  {
  }

  // With distinct ids nobody signs in with somebody else's email, username or phone.
  lemma {:induction false} IdentifiersAreUnique(users: seq<UserRow>, rows: seq<Row>, keeps: Keeps,
          placeholders: set<string>, lower: string -> string)
    requires DistinctIds(rows) && |users| == |rows|
    requires AllResolved(rows, keeps, placeholders, lower)
    requires forall i :: 0 <= i < |rows| ==> users[i] == Identified(users[i], rows[i], keeps, lower)
    ensures NoneShared(users)
  {
    forall i: nat, j: nat | i < j < |users|
      ensures users[i].email.Some? ==> users[i].email != users[j].email
      ensures users[i].username.Some? ==> users[i].username != users[j].username
      ensures users[i].phone.Some? ==> users[i].phone != users[j].phone
    {
      NotBothKept(rows, Email(lower), {}, keeps.email, i, j);
      NotBothKept(rows, Username(lower), {}, keeps.username, i, j);
      NotBothKept(rows, Phone(lower), placeholders, keeps.phone, i, j);
    }
  }

  lemma {:induction false} NotBothKept(rows: seq<Row>, value: Row -> string, placeholders: set<string>,
          keep: set<string>, i: nat, j: nat)
    requires DistinctIds(rows) && Identifiers.Resolved(keep, rows, value, placeholders) && i < j < |rows|
    ensures rows[i].id in keep && rows[j].id in keep ==> value(rows[i]) != value(rows[j])
  {
    if rows[i].id in keep && rows[j].id in keep && value(rows[i]) == value(rows[j]) {
      Identifiers.OneAccountKeepsEachValue(rows, value, placeholders, keep, i, j);
    }
  }
}
