// The import from end to end: every person ends with exactly what they held (cmd/import/plan.go).
module Import {
  import opened Prelude
  import opened ImportWalk
  import opened ImportPlan
  import opened ImportRoles
  import Strings

  lemma {:induction false} AccessIsClean(a: AccessRow, r: Row, table: Mapping, clean: string -> string)
    requires Accesses(a, r, table, clean) && CleanTable(table)
    ensures Clean(a.permissions) && a.role != ADMINISTRATOR
  {
    NobodyIsNamedAdministrator(clean(r.role));
    forall k | k in a.permissions ensures k != "" && NUL !in k {
      assert k in Strings.Members(a.permissions);
      assert k in KeysHeld(table, r);
    }
  }

  lemma {:induction false} QualifiedMembers(list: seq<string>)
    ensures Strings.Members(Qualified(list)) == set k | k in Strings.Members(list) :: "tms:" + k
  {
    forall k | k in list ensures "tms:" + k in Qualified(list) {
      var i :| 0 <= i < |list| && list[i] == k;
      assert Qualified(list)[i] == "tms:" + k;
    }
  }

  // The role behind somebody's key holds exactly what they held: nobody is narrowed, and nobody
  // is widened unless a role of that name already granted everything.
  lemma {:induction false} KeyHoldsExactly(key: RoleKey, r: (string, string), list: seq<string>,
          permissions: seq<string>, held: set<string>, roles: Roles, before: Roles)
    requires Backs(key, r, list, roles, before) && Clean(permissions) && key.1 == Join(permissions)
    requires ListsKeys(permissions, held)
    ensures HoldsExactly(r, held, roles, before)
  {
    JoinInjective(list, permissions);
    QualifiedMembers(permissions);
  }

  // Two people of one company get one role exactly when they held the same keys.
  lemma {:induction false} SameRoleIff(names: Names, k: RoleKey, l: RoleKey, a: seq<string>, b: seq<string>,
          heldA: set<string>, heldB: set<string>)
    requires Injective(names) && k in names && l in names && k.1 == Join(a) && l.1 == Join(b)
    requires Clean(a) && Clean(b) && ListsKeys(a, heldA) && ListsKeys(b, heldB)
    ensures RoleId(names, k) == RoleId(names, l) <==> k.0 == l.0 && heldA == heldB
  {
    if RoleId(names, k) == RoleId(names, l) {
      JoinInjective(a, b);
    }
    if k.0 == l.0 && heldA == heldB {
      Strings.SortedListIsUnique(a, b);
    }
  }

  // A person who is no administrator and whose company can be told apart by its legacy id.
  predicate Employed(u: UserRow) {
    !u.admin && u.companyLegacy != ""
  }

  ghost predicate Rowed(rows: seq<Row>, p: Plan, table: Mapping, clean: string -> string) {
    && |p.users| == |p.access| == |rows|
    && (forall i :: 0 <= i < |rows| ==> p.users[i].legacy == rows[i].id && (p.users[i].admin <==> rows[i].parent == ""))
    && (forall i :: 0 <= i < |rows| ==> Accesses(p.access[i], rows[i], table, clean))
  }

  function KeyOfPerson(p: Plan, i: nat): RoleKey
    requires i < |p.users| == |p.access|
  {
    (p.users[i].companyLegacy, Join(p.access[i].permissions))
  }

  // With distinct ids the last row of a person is their only one.
  lemma {:induction false} PersonSettled(rows: seq<Row>, p: Plan, table: Mapping, clean: string -> string, known: Users,
          names: Names, lists: map<RoleKey, seq<string>>, roles: Roles, before: Roles, roleOf: Assigned, i: nat)
    requires DistinctIds(rows) && Rowed(rows, p, table, clean) && i < |rows|
    requires Applied(p.users, p.access, known, names, lists, roles, before, roleOf)
    ensures Employed(p.users[i]) ==>
      && KeyOfPerson(p, i) in names && rows[i].id in roleOf && roleOf[rows[i].id] == RoleId(names, KeyOfPerson(p, i))
    ensures p.users[i].admin && p.users[i].companyLegacy != "" ==>
      rows[i].id in roleOf && roleOf[rows[i].id] == (p.users[i].companyLegacy, ADMINISTRATOR)
  {
  }

  ghost predicate KeepsWhatTheyHeld(u: UserRow, r: Row, table: Mapping, roles: Roles, before: Roles, roleOf: Assigned) {
    Employed(u) ==>
      && r.id in roleOf && roleOf[r.id].0 == u.companyLegacy && roleOf[r.id].1 != ADMINISTRATOR
      && HoldsExactly(roleOf[r.id], KeysHeld(table, r), roles, before)
  }

  lemma {:induction false} EveryoneKeepsWhatTheyHeld(rows: seq<Row>, p: Plan, table: Mapping, clean: string -> string,
          known: Users, names: Names, lists: map<RoleKey, seq<string>>, roles: Roles, before: Roles, roleOf: Assigned,
          i: nat)
    requires DistinctIds(rows) && CleanTable(table) && Rowed(rows, p, table, clean) && i < |rows|
    requires Applied(p.users, p.access, known, names, lists, roles, before, roleOf)
    ensures KeepsWhatTheyHeld(p.users[i], rows[i], table, roles, before, roleOf)
  {
    PersonSettled(rows, p, table, clean, known, names, lists, roles, before, roleOf, i);
    AccessIsClean(p.access[i], rows[i], table, clean);
    if Employed(p.users[i]) {
      var key := KeyOfPerson(p, i);
      assert Backs(key, RoleId(names, key), lists[key], roles, before);
      KeyHoldsExactly(key, RoleId(names, key), lists[key], p.access[i].permissions, KeysHeld(table, rows[i]), roles,
          before);
    }
  }

  lemma {:induction false} RolesAreShared(rows: seq<Row>, p: Plan, table: Mapping, clean: string -> string,
          known: Users, names: Names, lists: map<RoleKey, seq<string>>, roles: Roles, before: Roles, roleOf: Assigned,
          i: nat, j: nat)
    requires DistinctIds(rows) && CleanTable(table) && Rowed(rows, p, table, clean) && i < |rows| && j < |rows|
    requires Applied(p.users, p.access, known, names, lists, roles, before, roleOf)
    ensures Employed(p.users[i]) && Employed(p.users[j]) ==>
      && rows[i].id in roleOf && rows[j].id in roleOf
      && (roleOf[rows[i].id] == roleOf[rows[j].id] <==>
           p.users[i].companyLegacy == p.users[j].companyLegacy && KeysHeld(table, rows[i]) == KeysHeld(table, rows[j]))
  {
    PersonSettled(rows, p, table, clean, known, names, lists, roles, before, roleOf, i);
    PersonSettled(rows, p, table, clean, known, names, lists, roles, before, roleOf, j);
    AccessIsClean(p.access[i], rows[i], table, clean);
    AccessIsClean(p.access[j], rows[j], table, clean);
    if Employed(p.users[i]) && Employed(p.users[j]) {
      SameRoleIff(names, KeyOfPerson(p, i), KeyOfPerson(p, j), p.access[i].permissions, p.access[j].permissions,
          KeysHeld(table, rows[i]), KeysHeld(table, rows[j]));
    }
  }

  ghost predicate RunsTheirCompany(u: UserRow, r: Row, roles: Roles, roleOf: Assigned) {
    u.admin && r.id != "" ==>
      r.id in roleOf && roleOf[r.id] == (r.id, ADMINISTRATOR) && GrantsAll(roles, (r.id, ADMINISTRATOR))
  }

  lemma {:induction false} AdministratorsRunTheirCompany(rows: seq<Row>, p: Plan, table: Mapping,
          clean: string -> string, index: Index, companyOf: map<string, nat>, companies: set<string>,
          rolesBefore: Roles, known: Users, names: Names, lists: map<RoleKey, seq<string>>, roles: Roles,
          roleOf: Assigned, i: nat)
    requires DistinctIds(rows) && Rowed(rows, p, table, clean) && Placed(p.users, rows, index, companyOf) && i < |rows|
    requires Applied(p.users, p.access, known, names, lists, roles, WithAdministrators(rolesBefore, companies), roleOf)
    requires forall t :: t in Tops(rows) ==> t in companies
    ensures RunsTheirCompany(p.users[i], rows[i], roles, roleOf)
  {
    if p.users[i].admin {
      AdministratorIsItsOwnRoot(p.users, rows, index, companyOf, i);
      PersonSettled(rows, p, table, clean, known, names, lists, roles, WithAdministrators(rolesBefore, companies),
          roleOf, i);
      assert rows[i].id in companies;
      AdministratorRoleKept(names, lists, roles, rolesBefore, companies, rows[i].id);
    }
  }

  lemma {:induction false} AdministratorRoleKept(names: Names, lists: map<RoleKey, seq<string>>, roles: Roles,
          rolesBefore: Roles, companies: set<string>, c: string)
    requires Proper(names) && OthersKept(names, roles, WithAdministrators(rolesBefore, companies)) && c in companies
    ensures GrantsAll(roles, (c, ADMINISTRATOR))
  {
  }

  lemma {:induction false} WithAdministratorsChangesNoJobRole(roles: Roles, companies: set<string>, r: (string, string))
    requires r.1 != ADMINISTRATOR
    ensures GrantsAll(WithAdministrators(roles, companies), r) <==> GrantsAll(roles, r)
  {
  }

  lemma {:induction false} TopsAreCompanies(rows: seq<Row>, made: seq<CompanyRow>, companies: set<string>)
    requires AreCompanies(made, Tops(rows)) && forall i :: 0 <= i < |made| ==> made[i].legacy in companies
    ensures forall t :: t in Tops(rows) ==> t in companies
  {
  }

  // Everyone else with a company ends with a role of exactly the keys they held; it grants
  // everything only where a role of its name already did.
  ghost predicate NobodyWidenedOrNarrowed(rows: seq<Row>, p: Plan, table: Mapping, roles: Roles, before: Roles,
          roleOf: Assigned)
    requires |p.users| == |rows|
  {
    forall i :: 0 <= i < |rows| ==> KeepsWhatTheyHeld(p.users[i], rows[i], table, roles, before, roleOf)
  }

  // A role is shared with precisely the colleagues who held the same.
  ghost predicate SharedByEqualSets(rows: seq<Row>, p: Plan, table: Mapping, roleOf: Assigned)
    requires |p.users| == |rows|
  {
    forall i, j :: 0 <= i < |rows| && 0 <= j < |rows| && Employed(p.users[i]) && Employed(p.users[j]) ==>
      && rows[i].id in roleOf && rows[j].id in roleOf
      && (roleOf[rows[i].id] == roleOf[rows[j].id] <==>
           p.users[i].companyLegacy == p.users[j].companyLegacy && KeysHeld(table, rows[i]) == KeysHeld(table, rows[j]))
  }

  // An account without a parent runs its company.
  ghost predicate CompaniesAreRun(rows: seq<Row>, p: Plan, roles: Roles, roleOf: Assigned)
    requires |p.users| == |rows|
  {
    forall i :: 0 <= i < |rows| ==> RunsTheirCompany(p.users[i], rows[i], roles, roleOf)
  }

  lemma {:induction false} NobodyWidened(rows: seq<Row>, p: Plan, table: Mapping, clean: string -> string, known: Users,
          names: Names, lists: map<RoleKey, seq<string>>, roles: Roles, rolesBefore: Roles, companies: set<string>,
          roleOf: Assigned)
    requires DistinctIds(rows) && CleanTable(table) && Rowed(rows, p, table, clean)
    requires Applied(p.users, p.access, known, names, lists, roles, WithAdministrators(rolesBefore, companies), roleOf)
    ensures NobodyWidenedOrNarrowed(rows, p, table, roles, rolesBefore, roleOf)
  {
    var start := WithAdministrators(rolesBefore, companies);
    forall i: nat | i < |rows| ensures KeepsWhatTheyHeld(p.users[i], rows[i], table, roles, rolesBefore, roleOf) {
      EveryoneKeepsWhatTheyHeld(rows, p, table, clean, known, names, lists, roles, start, roleOf, i);
      if Employed(p.users[i]) {
        WithAdministratorsChangesNoJobRole(rolesBefore, companies, roleOf[rows[i].id]);
      }
    }
  }

  lemma {:induction false} EqualSetsShare(rows: seq<Row>, p: Plan, table: Mapping, clean: string -> string,
          known: Users, names: Names, lists: map<RoleKey, seq<string>>, roles: Roles, before: Roles, roleOf: Assigned)
    requires DistinctIds(rows) && CleanTable(table) && Rowed(rows, p, table, clean)
    requires Applied(p.users, p.access, known, names, lists, roles, before, roleOf)
    ensures SharedByEqualSets(rows, p, table, roleOf)
  {
    forall i: nat, j: nat | i < |rows| && j < |rows| && Employed(p.users[i]) && Employed(p.users[j])
      ensures rows[i].id in roleOf && rows[j].id in roleOf
      ensures roleOf[rows[i].id] == roleOf[rows[j].id] <==>
        p.users[i].companyLegacy == p.users[j].companyLegacy && KeysHeld(table, rows[i]) == KeysHeld(table, rows[j])
    {
      RolesAreShared(rows, p, table, clean, known, names, lists, roles, before, roleOf, i, j);
    }
  }

  lemma {:induction false} RowsBuilt(rows: seq<Row>, p: Plan, table: Mapping, clean: string -> string, index: Index,
          companyOf: map<string, nat>)
    requires CleanTable(table) && Placed(p.users, rows, index, companyOf) && |p.access| == |rows|
    requires forall i :: 0 <= i < |rows| ==> Accesses(p.access[i], rows[i], table, clean)
    ensures Rowed(rows, p, table, clean)
    ensures forall i :: 0 <= i < |rows| ==> Clean(p.access[i].permissions) && p.access[i].role != ADMINISTRATOR
  {
    forall i | 0 <= i < |rows|
      ensures p.users[i].legacy == rows[i].id && (p.users[i].admin <==> rows[i].parent == "")
      ensures Clean(p.access[i].permissions) && p.access[i].role != ADMINISTRATOR
    {
      assert Joins(p.users[i], rows[i], index, companyOf);
      AccessIsClean(p.access[i], rows[i], table, clean);
    }
  }

  method Companies(made: seq<CompanyRow>, existing: set<string>) returns (companies: set<string>)
    ensures forall i :: 0 <= i < |made| ==> made[i].legacy in companies
    ensures forall c :: c in companies ==> c in existing || exists i :: 0 <= i < |made| && made[i].legacy == c
  {
    companies := existing + set i | 0 <= i < |made| :: made[i].legacy;
  }

  lemma {:induction false} CompaniesRun(rows: seq<Row>, p: Plan, table: Mapping, clean: string -> string, index: Index,
          companyOf: map<string, nat>, companies: set<string>, rolesBefore: Roles, known: Users, names: Names,
          lists: map<RoleKey, seq<string>>, roles: Roles, roleOf: Assigned)
    requires DistinctIds(rows) && Rowed(rows, p, table, clean) && Placed(p.users, rows, index, companyOf)
    requires Applied(p.users, p.access, known, names, lists, roles, WithAdministrators(rolesBefore, companies), roleOf)
    requires AreCompanies(p.companies, Tops(rows)) && forall i :: 0 <= i < |p.companies| ==>
      p.companies[i].legacy in companies
    ensures CompaniesAreRun(rows, p, roles, roleOf)
  {
    TopsAreCompanies(rows, p.companies, companies);
    forall i: nat | i < |rows| ensures RunsTheirCompany(p.users[i], rows[i], roles, roleOf) {
      AdministratorsRunTheirCompany(rows, p, table, clean, index, companyOf, companies, rolesBefore, known, names,
          lists, roles, roleOf, i);
    }
  }

  // ---- What the import leaves alone ----------------------------------------------------------------

  // Whoever gets no company keeps the role they had, and so does everybody who is not in the export.
  ghost predicate RolesKept(rows: seq<Row>, p: Plan, before: Assigned, roleOf: Assigned)
    requires |p.users| == |rows|
  {
    forall user ::
      (forall i :: 0 <= i < |rows| && rows[i].id == user ==> p.users[i].companyLegacy == "") ==>
      (user in roleOf <==> user in before) && (user in before ==> roleOf[user] == before[user])
  }

  // No role is removed; the administrators' gain nothing but their grant; any other is changed only if
  // somebody ends with it.
  ghost predicate RolesSurvive(rows: seq<Row>, p: Plan, rolesBefore: Roles, roles: Roles, roleOf: Assigned)
    requires |p.users| == |rows|
  {
    forall r :: r in rolesBefore ==>
      && r in roles
      && (r.1 == "Administrator" ==> roles[r].permissions == rolesBefore[r].permissions)
      && (r.1 != "Administrator" && roles[r] != rolesBefore[r] ==> SomebodyEndsWith(rows, p, roleOf, r))
  }

  ghost predicate SomebodyEndsWith(rows: seq<Row>, p: Plan, roleOf: Assigned, r: (string, string))
    requires |p.users| == |rows|
  {
    exists i :: 0 <= i < |rows| && Employed(p.users[i]) && rows[i].id in roleOf && roleOf[rows[i].id] == r
  }

  lemma {:induction false} OnlyCompanylessKeep(rows: seq<Row>, p: Plan, table: Mapping, clean: string -> string,
          known: Users, names: Names, lists: map<RoleKey, seq<string>>, roles: Roles, rolesBefore: Roles,
          before: Assigned, roleOf: Assigned)
    requires DistinctIds(rows) && Rowed(rows, p, table, clean)
    requires Applied(p.users, p.access, known, names, lists, roles, rolesBefore, roleOf)
    requires RestKeepTheirs(p.access, known, names, before, roleOf)
    ensures RolesKept(rows, p, before, roleOf)
  {
    forall user | forall i :: 0 <= i < |rows| && rows[i].id == user ==> p.users[i].companyLegacy == ""
      ensures (user in roleOf <==> user in before) && (user in before ==> roleOf[user] == before[user])
    {
      forall i | 0 <= i < |p.access| && p.access[i].user == user ensures Given(known, p.access[i], names).None? {
        assert Accesses(p.access[i], rows[i], table, clean);
        assert LastUser(p.users, i);
      }
    }
  }

  lemma {:induction false} MadeRoleIsHeld(rows: seq<Row>, p: Plan, table: Mapping, clean: string -> string,
          known: Users, names: Names, lists: map<RoleKey, seq<string>>, roles: Roles, rolesBefore: Roles,
          roleOf: Assigned, key: RoleKey)
    requires DistinctIds(rows) && Rowed(rows, p, table, clean) && key in names
    requires Applied(p.users, p.access, known, names, lists, roles, rolesBefore, roleOf)
    requires Titled(names, known, p.access, |p.access|)
    ensures SomebodyEndsWith(rows, p, roleOf, RoleId(names, key))
  {
    assert TitledFor(key, names[key], known, p.access, |p.access|);
    var j :| 0 <= j < |p.access| && NeedsFirst(known, p.access, j, key) && TitleOf(p.access[j], names[key]);
    assert Accesses(p.access[j], rows[j], table, clean);
    assert LastUser(p.users, j);
    assert LastAccess(p.access, j, |p.access|) by {
      forall k | j < k < |p.access| ensures p.access[k].user != p.access[j].user {
        assert Accesses(p.access[k], rows[k], table, clean);
      }
    }
  }

  lemma {:induction false} RolesDoSurvive(rows: seq<Row>, p: Plan, table: Mapping, clean: string -> string,
          known: Users, names: Names, lists: map<RoleKey, seq<string>>, roles: Roles, rolesBefore: Roles,
          companies: set<string>, roleOf: Assigned)
    requires DistinctIds(rows) && Rowed(rows, p, table, clean)
    requires Applied(p.users, p.access, known, names, lists, roles, WithAdministrators(rolesBefore, companies), roleOf)
    requires Titled(names, known, p.access, |p.access|)
    ensures RolesSurvive(rows, p, rolesBefore, roles, roleOf)
  {
    var start := WithAdministrators(rolesBefore, companies);
    forall r | r in rolesBefore
      ensures r in roles
      ensures r.1 == "Administrator" ==> roles[r].permissions == rolesBefore[r].permissions
      ensures r.1 != "Administrator" && roles[r] != rolesBefore[r] ==> SomebodyEndsWith(rows, p, roleOf, r)
    {
      WithAdministratorsIs(rolesBefore, companies, r.0, r.1);
      assert r == (r.0, r.1) && r in start;
      if Made(names, r) {
        var key :| key in names && RoleId(names, key) == r;
        assert Backs(key, RoleId(names, key), lists[key], roles, start);
        MadeRoleIsHeld(rows, p, table, clean, known, names, lists, roles, start, roleOf, key);
      }
    }
  }

  // The whole import, planned and applied.
  method Run(rows: seq<Row>, table: Mapping, placeholders: set<string>, lower: string -> string,
          clean: string -> string, existing: set<string>, rolesBefore: Roles, before: Assigned)
    returns (p: Plan, roles: Roles, roleOf: Assigned)
    requires DistinctIds(rows) && CleanTable(table)
    ensures Rowed(rows, p, table, clean) && AreCompanies(p.companies, Tops(rows)) && NoneShared(p.users)
    ensures exists index: Index, companyOf: map<string, nat> :: Placed(p.users, rows, index, companyOf)
    ensures NobodyWidenedOrNarrowed(rows, p, table, roles, rolesBefore, roleOf)
    ensures SharedByEqualSets(rows, p, table, roleOf)
    ensures CompaniesAreRun(rows, p, roles, roleOf)
    // Everybody signs in with their own, and of the holders of one value exactly one, an oldest, with it.
    ensures lower("") == "" ==> SignsIn(p.users, rows, placeholders, lower)
    ensures forall i :: 0 <= i < |rows| ==> OwnIdentifiers(p.users[i], rows[i], lower)
    ensures forall i :: 0 <= i < |rows| ==> (p.users[i].role, p.users[i].staff) == PlannedRole(clean(rows[i].role))
    ensures RolesKept(rows, p, before, roleOf) && RolesSurvive(rows, p, rolesBefore, roles, roleOf)
  {
    ghost var index, companyOf, keeps;
    p, index, companyOf, keeps := Build(rows, table, placeholders, lower, clean);
    RowsBuilt(rows, p, table, clean, index, companyOf);
    IdentifiersAreUnique(p.users, rows, keeps, placeholders, lower);
    if lower("") == "" {
      EverybodySignsIn(p.users, rows, keeps, placeholders, lower);
    }
    forall i | 0 <= i < |rows| ensures OwnIdentifiers(p.users[i], rows[i], lower) {
      assert p.users[i] == Identified(p.users[i], rows[i], keeps, lower);
    }
    var companies := Companies(p.companies, existing);
    roles, roleOf := Apply(p.users, p.access, companies, rolesBefore, before);
    ghost var known: Users, names: Names, lists: map<RoleKey, seq<string>> :|
      && Applied(p.users, p.access, known, names, lists, roles, WithAdministrators(rolesBefore, companies), roleOf)
      && RestKeepTheirs(p.access, known, names, before, roleOf) && Titled(names, known, p.access, |p.access|);
    OnlyCompanylessKeep(rows, p, table, clean, known, names, lists, roles, WithAdministrators(rolesBefore, companies),
        before, roleOf);
    RolesDoSurvive(rows, p, table, clean, known, names, lists, roles, rolesBefore, companies, roleOf);
    NobodyWidened(rows, p, table, clean, known, names, lists, roles, rolesBefore, companies, roleOf);
    EqualSetsShare(rows, p, table, clean, known, names, lists, roles, WithAdministrators(rolesBefore, companies),
        roleOf);
    CompaniesRun(rows, p, table, clean, index, companyOf, companies, rolesBefore, known, names, lists, roles, roleOf);
  }
}
