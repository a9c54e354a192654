// Inventing roles from what people held, and handing them out: the last part of apply in
// cmd/import/plan.go.
module ImportRoles {
  import opened Prelude
  import opened ImportPlan
  import Strings

  // ---- Names --------------------------------------------------------------------------------------------

  function Decimal(n: nat): string {
    (if n < 10 then "" else Decimal(n / 10)) + [('0' as int + n % 10) as char]
  }

  lemma {:induction false} DecimalInjective(m: nat, n: nat)
    requires Decimal(m) == Decimal(n)
    ensures m == n
  {
    var a := if m < 10 then "" else Decimal(m / 10);
    var b := if n < 10 then "" else Decimal(n / 10);
    assert Decimal(m)[..|a|] == a && Decimal(n)[..|b|] == b && |a| == |b|;
    assert Decimal(m)[|a|] == Decimal(n)[|b|];
    if m >= 10 && n >= 10 {
      DecimalInjective(m / 10, n / 10);
    }
  }

  // What a reader makes of a number.
  function Reading(s: string): nat
    requires forall i :: 0 <= i < |s| ==> '0' <= s[i] <= '9'
  {
    if s == "" then 0 else Reading(s[..|s| - 1]) * 10 + (s[|s| - 1] as int - '0' as int)
  }

  // Digits that read as the number, without a leading zero.
  lemma {:induction false} DecimalReads(n: nat)
    ensures Decimal(n) != "" && (n > 0 ==> Decimal(n)[0] != '0')
    ensures forall i :: 0 <= i < |Decimal(n)| ==> '0' <= Decimal(n)[i] <= '9'
    ensures Reading(Decimal(n)) == n
  {
    var front := if n < 10 then "" else Decimal(n / 10);
    if n >= 10 {
      DecimalReads(n / 10);
    }
    assert Decimal(n)[..|Decimal(n)| - 1] == front;
  }

  function Numbered(base: string, n: nat): string {
    if n < 2 then base else base + " (" + Decimal(n) + ")"
  }

  lemma {:induction false} NumberedInjective(base: string, m: nat, n: nat)
    requires 1 <= m < n
    ensures Numbered(base, m) != Numbered(base, n)
  {
    if m >= 2 && Numbered(base, m) == Numbered(base, n) {
      var stem := |base + " ("|;
      assert Numbered(base, m)[stem..] == Decimal(m) + ")" && Numbered(base, n)[stem..] == Decimal(n) + ")";
      assert (Decimal(m) + ")")[..|Decimal(m)|] == Decimal(m) && (Decimal(n) + ")")[..|Decimal(n)|] == Decimal(n);
      DecimalInjective(m, n);
    }
  }

  function Used(company: string, name: string): string {
    company + "|" + name
  }

  lemma {:induction false} UsedInjective(company: string, a: string, b: string)
    requires Used(company, a) == Used(company, b)
    ensures a == b
  {
    var stem := |company + "|"|;
    assert Used(company, a)[stem..] == a && Used(company, b)[stem..] == b;
  }

  // Tries the base name, then numbers it from two until the name is free: it always finds one.
  method FreeName(base: string, company: string, nameUsed: set<string>) returns (name: string)
    ensures Used(company, name) !in nameUsed
    ensures name == base || exists n: nat :: n >= 2 && name == base + " (" + Decimal(n) + ")"
    ensures exists n :: n >= 1 && name == Numbered(base, n) && forall k :: 1 <= k < n ==>
      Used(company, Numbered(base, k)) in nameUsed
  {
    name := base;
    var n := 2;
    ghost var tried: set<string> := {};
    while Used(company, name) in nameUsed
      invariant n >= 2 && name == Numbered(base, n - 1)
      invariant tried <= nameUsed && |tried| == n - 2
      invariant forall k :: 1 <= k < n - 1 ==> Used(company, Numbered(base, k)) in nameUsed
      invariant forall x :: x in tried ==> exists k :: 1 <= k < n - 1 && x == Used(company, Numbered(base, k))
      decreases |nameUsed| + 2 - n
    {
      assert Used(company, name) !in tried by {
        if Used(company, name) in tried {
          var k :| 1 <= k < n - 1 && Used(company, name) == Used(company, Numbered(base, k));
          UsedInjective(company, name, Numbered(base, k));
          NumberedInjective(base, k, n - 1);
        }
      }
      tried := tried + {Used(company, name)};
      SubsetSize(tried, nameUsed);
      name := base + " (" + Decimal(n) + ")";
      n := n + 1;
    }
    assert name == Numbered(base, n - 1);
    if n > 2 {
      ghost var last: nat := n - 1;
      assert name == base + " (" + Decimal(last) + ")";
    }
  }

  lemma {:induction false} SubsetSize(a: set<string>, b: set<string>)
    requires a <= b
    ensures |a| <= |b|
  {
    if a != {} {
      var x :| x in a;
      SubsetSize(a - {x}, b - {x});
    }
  }

  // ---- One key per set of permissions ---------------------------------------------------------------------

  const NUL := '\0'

  function Join(list: seq<string>): string {
    if list == [] then ""
    else if |list| == 1 then list[0]
    else list[0] + [NUL] + Join(list[1..])
  }

  ghost predicate Clean(list: seq<string>) {
    forall k :: k in list ==> k != "" && NUL !in k
  }

  // Keys are never empty and never hold the separator, so two lists join alike only if they are one.
  lemma {:induction false} JoinInjective(a: seq<string>, b: seq<string>)
    requires Clean(a) && Clean(b) && Join(a) == Join(b)
    ensures a == b
  {
    JoinEmptyIff(a);
    JoinEmptyIff(b);
    if a != [] {
      assert a[0] in a && b[0] in b;
      FirstKey(a, b);
      FirstKey(b, a);
      assert Join(a)[..|a[0]|] == a[0] && Join(b)[..|b[0]|] == b[0];
      if |a| > 1 {
        assert Join(a)[|a[0]| + 1..] == Join(a[1..]) && Join(b)[|b[0]| + 1..] == Join(b[1..]);
        forall k ensures (k in a[1..] ==> k in a) && (k in b[1..] ==> k in b) {
        }
        JoinInjective(a[1..], b[1..]);
        assert a == [a[0]] + a[1..] && b == [b[0]] + b[1..];
      }
    }
  }

  lemma {:induction false} JoinEmptyIff(a: seq<string>)
    requires Clean(a)
    ensures Join(a) == "" <==> a == []
  {
    if a != [] {
      assert a[0] in a;
    }
  }

  lemma {:induction false} FirstKey(a: seq<string>, b: seq<string>)
    requires a != [] && b != [] && NUL !in b[0]
    ensures |a[0]| < |b[0]| ==> Join(a) != Join(b)
  {
    if |a[0]| < |b[0]| && |a| > 1 {
      assert Join(a)[|a[0]|] == NUL;
      assert Join(b)[|a[0]|] == b[0][|a[0]|];
    }
  }

  // ---- The tables -----------------------------------------------------------------------------------------

  datatype RoleRow = RoleRow(permissions: seq<string>, grantsAll: bool, system: bool)

  // A company's roles by name; a company is known by the legacy account it was derived from.
  type Roles = map<(string, string), RoleRow>

  type RoleKey = (string, string)

  function Qualified(keys: seq<string>): seq<string> {
    seq(|keys|, i requires 0 <= i < |keys| => "tms:" + keys[i])
  }

  function WithAdministrators(roles: Roles, companies: set<string>): Roles {
    roles + map c | c in companies :: (c, ADMINISTRATOR) :=
      if (c, ADMINISTRATOR) in roles then
        roles[(c, ADMINISTRATOR)].(grantsAll := true, system := true) else RoleRow([], true, true)
  }

  // Each company's administrator role grants everything and is the system's, and keeps what it
  // listed; no other role is touched.
  lemma {:induction false} WithAdministratorsIs(roles: Roles, companies: set<string>, c: string, name: string)
    ensures
      var after := WithAdministrators(roles, companies);
      if name == "Administrator" && c in companies then
        && (c, name) in after && after[(c, name)].grantsAll && after[(c, name)].system
        && after[(c, name)].permissions == if (c, name) in roles then roles[(c, name)].permissions else []
      else ((c, name) in after <==> (c, name) in roles) && ((c, name) in roles ==> after[(c, name)] == roles[(c, name)])
  {
  }

  // ---- Creating -------------------------------------------------------------------------------------------

  type Users = map<string, UserRow>

  ghost predicate LastUser(users: seq<UserRow>, i: int) {
    0 <= i < |users| && forall j :: i < j < |users| ==> users[j].legacy != users[i].legacy
  }

  method UsersByLegacy(users: seq<UserRow>) returns (known: Users)
    ensures forall i :: LastUser(users, i) ==> users[i].legacy in known && known[users[i].legacy] == users[i]
  {
    known := map[];
    for i := 0 to |users|
      invariant forall j :: 0 <= j < i && (forall k :: j < k < i ==> users[k].legacy != users[j].legacy) ==>
        users[j].legacy in known && known[users[j].legacy] == users[j]
    {
      known := known[users[i].legacy := users[i]];
    }
  }

  // An administrator holds no job role, and nobody without a company does.
  predicate WantsJobRole(known: Users, a: AccessRow) {
    a.user in known && known[a.user].companyLegacy != "" && !known[a.user].admin
  }

  function KeyOf(known: Users, a: AccessRow): RoleKey
    requires a.user in known
  {
    (known[a.user].companyLegacy, Join(a.permissions))
  }

  type Names = map<RoleKey, string>

  function RoleId(names: Names, k: RoleKey): (string, string)
    requires k in names
  {
    (k.0, names[k])
  }

  ghost predicate Injective(names: Names) {
    forall k, l :: k in names && l in names && RoleId(names, k) == RoleId(names, l) ==> k == l
  }

  ghost predicate Proper(names: Names) {
    forall k :: k in names ==> names[k] != "" && names[k] != ADMINISTRATOR
  }

  predicate GrantsAll(roles: Roles, r: (string, string)) {
    r in roles && roles[r].grantsAll
  }

  // The role behind a key lists exactly its permissions, and grants everything only if a role of
  // that name already did.
  ghost predicate Backs(k: RoleKey, r: (string, string), list: seq<string>, roles: Roles, before: Roles) {
    && Clean(list) && Join(list) == k.1
    && r in roles && roles[r].permissions == Qualified(list) && (roles[r].grantsAll <==> GrantsAll(before, r))
    && (roles[r].system <==> r in before && before[r].system)
  }

  ghost predicate Backed(names: Names, lists: map<RoleKey, seq<string>>, roles: Roles, before: Roles) {
    && names.Keys == lists.Keys
    && forall k :: k in names ==> Backs(k, RoleId(names, k), lists[k], roles, before)
  }

  predicate Made(names: Names, r: (string, string)) {
    exists k :: k in names && RoleId(names, k) == r
  }

  ghost predicate OthersKept(names: Names, roles: Roles, before: Roles) {
    && (forall r :: r in before && !Made(names, r) ==> r in roles && roles[r] == before[r])
    && (forall r :: r in roles && !Made(names, r) ==> r in before)
  }

  ghost predicate AllTaken(names: Names, nameUsed: set<string>) {
    forall k :: k in names ==> Used(k.0, names[k]) in nameUsed
  }

  function Saved(roles: Roles, r: (string, string), permissions: seq<string>): Roles {
    roles[r := if r in roles then roles[r].(permissions := permissions) else RoleRow(permissions, false, false)]
  }

  lemma {:induction false} NotAdministrator(base: string, n: nat)
    requires base != ADMINISTRATOR
    ensures Numbered(base, n) != ADMINISTRATOR
  {
    if n >= 2 {
      assert Numbered(base, n)[|Numbered(base, n)| - 1] == ')';
    }
  }

  // A new key takes a free name, so nothing that was there loses its role.
  lemma {:induction false} NameIsNew(names: Names, nameUsed: set<string>, key: RoleKey, name: string)
    requires AllTaken(names, nameUsed) && key !in names && Used(key.0, name) !in nameUsed
    ensures !Made(names, (key.0, name))
    ensures Injective(names) ==> Injective(names[key := name])
  {
  }

  lemma {:induction false} MadeGrows(names: Names, key: RoleKey, name: string, r: (string, string))
    requires key !in names
    ensures Made(names[key := name], r) <==> Made(names, r) || r == (key.0, name)
  {
    var next := names[key := name];
    if Made(names, r) {
      var k :| k in names && RoleId(names, k) == r;
      assert RoleId(next, k) == r;
    }
    if r == (key.0, name) {
      assert RoleId(next, key) == r;
    }
  }

  lemma {:induction false} RoleBacked(names: Names, lists: map<RoleKey, seq<string>>, roles: Roles, before: Roles,
          key: RoleKey, name: string, permissions: seq<string>)
    requires Backed(names, lists, roles, before) && OthersKept(names, roles, before)
    requires key !in names && !Made(names, (key.0, name)) && Clean(permissions) && Join(permissions) == key.1
    ensures Backed(names[key := name], lists[key := permissions], Saved(roles, (key.0, name), Qualified(permissions)),
        before)
  {
    var next, r := names[key := name], (key.0, name);
    var saved := Saved(roles, r, Qualified(permissions));
    assert r in roles <==> r in before;
    forall k | k in next ensures Backs(k, RoleId(next, k), lists[key := permissions][k], saved, before) {
      if k != key {
        assert Backs(k, RoleId(names, k), lists[k], roles, before);
        assert RoleId(names, k) != r;
      }
    }
  }

  lemma {:induction false} OthersStillKept(names: Names, roles: Roles, before: Roles, key: RoleKey, name: string,
          permissions: seq<string>)
    requires OthersKept(names, roles, before) && key !in names
    ensures OthersKept(names[key := name], Saved(roles, (key.0, name), permissions), before)
  {
    var next, saved := names[key := name], Saved(roles, (key.0, name), permissions);
    forall r | r in before && !Made(next, r) ensures r in saved && saved[r] == before[r] {
      MadeGrows(names, key, name, r);
    }
    forall r | r in saved && !Made(next, r) ensures r in before {
      MadeGrows(names, key, name, r);
    }
  }

  // A role is named for the job of the first person who needed it, numbered if that name was taken.
  ghost predicate IsNumbered(base: string, name: string) {
    exists n :: n >= 1 && name == Numbered(base, n)
  }

  ghost predicate TitleOf(a: AccessRow, name: string) {
    IsNumbered(if a.role == "" then "Member" else a.role, name)
  }

  ghost predicate Titled(names: Names, known: Users, access: seq<AccessRow>, end: int) {
    forall k :: k in names ==> TitledFor(k, names[k], known, access, end)
  }

  ghost predicate TitledFor(k: RoleKey, name: string, known: Users, access: seq<AccessRow>, end: int) {
    exists j :: 0 <= j < end <= |access| && NeedsFirst(known, access, j, k) && TitleOf(access[j], name)
  }

  lemma {:induction false} TitlesStay(names: Names, known: Users, access: seq<AccessRow>, i: nat)
    requires i < |access| && Titled(names, known, access, i)
    ensures Titled(names, known, access, i + 1)
  {
    forall k | k in names ensures TitledFor(k, names[k], known, access, i + 1) {
      var j :| 0 <= j < i <= |access| && NeedsFirst(known, access, j, k) && TitleOf(access[j], names[k]);
    }
  }

  ghost predicate NeedsFirst(known: Users, access: seq<AccessRow>, j: int, k: RoleKey) {
    && 0 <= j < |access| && WantsJobRole(known, access[j]) && KeyOf(known, access[j]) == k
    && forall i :: 0 <= i < j && WantsJobRole(known, access[i]) ==> KeyOf(known, access[i]) != k
  }

  lemma {:induction false} TitlesGrow(names: Names, known: Users, access: seq<AccessRow>, i: nat, name: string)
    requires i < |access| && Titled(names, known, access, i) && WantsJobRole(known, access[i])
    requires TitleOf(access[i], name)
    requires forall j :: 0 <= j < i && WantsJobRole(known, access[j]) ==> KeyOf(known, access[j]) in names
    requires KeyOf(known, access[i]) !in names
    ensures Titled(names[KeyOf(known, access[i]) := name], known, access, i + 1)
  {
    TitlesStay(names, known, access, i);
    assert NeedsFirst(known, access, i, KeyOf(known, access[i]));
    assert TitledFor(KeyOf(known, access[i]), name, known, access, i + 1);
  }

  // One role for each distinct set of permissions in a company.
  method CreateRoles(access: seq<AccessRow>, known: Users, before: Roles)
    returns (roles: Roles, roleNames: Names, ghost lists: map<RoleKey, seq<string>>)
    requires forall i :: 0 <= i < |access| ==> Clean(access[i].permissions) && access[i].role != ADMINISTRATOR
    ensures Injective(roleNames) && Proper(roleNames)
    ensures Backed(roleNames, lists, roles, before) && OthersKept(roleNames, roles, before)
    ensures Titled(roleNames, known, access, |access|)
    ensures forall i :: 0 <= i < |access| && WantsJobRole(known, access[i]) ==> KeyOf(known, access[i]) in roleNames
  {
    roles, roleNames, lists := before, map[], map[];
    var nameUsed: set<string> := {};
    for i := 0 to |access|
      invariant Injective(roleNames) && Proper(roleNames) && AllTaken(roleNames, nameUsed)
      invariant Backed(roleNames, lists, roles, before) && OthersKept(roleNames, roles, before)
      invariant Titled(roleNames, known, access, i)
      invariant forall j :: 0 <= j < i && WantsJobRole(known, access[j]) ==> KeyOf(known, access[j]) in roleNames
    {
      var a := access[i];
      TitlesStay(roleNames, known, access, i);
      if !WantsJobRole(known, a) {
        continue;
      }
      var key := KeyOf(known, a);
      if key in roleNames {
        continue;
      }
      var base := if a.role == "" then "Member" else a.role;
      var name := FreeName(base, key.0, nameUsed);
      assert IsNumbered(base, name);
      assert TitleOf(a, name);
      TitlesGrow(roleNames, known, access, i, name);
      NameIsNew(roleNames, nameUsed, key, name);
      RoleBacked(roleNames, lists, roles, before, key, name, a.permissions);
      OthersStillKept(roleNames, roles, before, key, name, Qualified(a.permissions));
      NumberedIsProper(base, name);
      nameUsed := nameUsed + {Used(key.0, name)};
      roleNames, lists := roleNames[key := name], lists[key := a.permissions];
      roles := Saved(roles, (key.0, name), Qualified(a.permissions));
    }
  }

  lemma {:induction false} NumberedIsProper(base: string, name: string)
    requires base != "" && base != ADMINISTRATOR && IsNumbered(base, name)
    ensures name != "" && name != ADMINISTRATOR
  {
    var n :| n >= 1 && name == Numbered(base, n);
    NotAdministrator(base, n);
  }

  // ---- Assigning ------------------------------------------------------------------------------------------

  type Assigned = map<string, (string, string)>

  // The name of the role a person ends with, if the import gives one.
  function Given(known: Users, a: AccessRow, roleNames: Names): Option<(string, string)> {
    if a.user !in known || known[a.user].companyLegacy == "" then None
    else if known[a.user].admin then Some((known[a.user].companyLegacy, ADMINISTRATOR))
    else if KeyOf(known, a) in roleNames then Some(RoleId(roleNames, KeyOf(known, a)))
    else None
  }

  ghost predicate LastAccess(access: seq<AccessRow>, i: int, end: int) {
    0 <= i < end <= |access| && forall j :: i < j < end ==> access[j].user != access[i].user
  }

  method AssignRoles(access: seq<AccessRow>, known: Users, roleNames: Names, before: Assigned)
    returns (roleOf: Assigned)
    requires Proper(roleNames)
    requires forall i :: 0 <= i < |access| && WantsJobRole(known, access[i]) ==> KeyOf(known, access[i]) in roleNames
    ensures forall i :: LastAccess(access, i, |access|) && Given(known, access[i], roleNames).Some? ==>
      access[i].user in roleOf && roleOf[access[i].user] == Given(known, access[i], roleNames).value
    ensures forall user ::
      (forall i :: 0 <= i < |access| && access[i].user == user ==> Given(known, access[i], roleNames).None?) ==>
      (user in roleOf <==> user in before) && (user in before ==> roleOf[user] == before[user])
  {
    roleOf := before;
    for i := 0 to |access|
      invariant forall j :: LastAccess(access, j, i) && Given(known, access[j], roleNames).Some? ==>
        access[j].user in roleOf && roleOf[access[j].user] == Given(known, access[j], roleNames).value
      invariant forall user ::
        (forall j :: 0 <= j < i && access[j].user == user ==> Given(known, access[j], roleNames).None?) ==>
        (user in roleOf <==> user in before) && (user in before ==> roleOf[user] == before[user])
    {
      var a := access[i];
      if a.user !in known || known[a.user].companyLegacy == "" {
        continue;
      }
      var name := ADMINISTRATOR;
      if !known[a.user].admin {
        name := roleNames[KeyOf(known, a)];
        if name == "" {
          continue;
        }
      }
      roleOf := roleOf[a.user := (known[a.user].companyLegacy, name)];
    }
  }

  // ---- The import as a whole ------------------------------------------------------------------------------

  // The table of legacy columns names no empty key and none with the separator in it.
  ghost predicate CleanTable(table: Mapping) {
    forall column :: column in table ==> table[column] != "" && NUL !in table[column]
  }

  // What one imported person ends with, among the roles there are.
  ghost predicate HoldsExactly(r: (string, string), held: set<string>, roles: Roles, before: Roles) {
    && r in roles
    && Strings.Members(roles[r].permissions) == (set k | k in held :: "tms:" + k)
    && (roles[r].grantsAll <==> GrantsAll(before, r))
  }

  // Everything one run of the role steps establishes.
  ghost predicate Applied(users: seq<UserRow>, access: seq<AccessRow>, known: Users, names: Names,
          lists: map<RoleKey, seq<string>>, roles: Roles, before: Roles, roleOf: Assigned)
  {
    && (forall i :: LastUser(users, i) ==> users[i].legacy in known && known[users[i].legacy] == users[i])
    && Injective(names) && Proper(names) && Backed(names, lists, roles, before) && OthersKept(names, roles, before)
    && (forall i :: 0 <= i < |access| && WantsJobRole(known, access[i]) ==> KeyOf(known, access[i]) in names)
    && (forall i :: LastAccess(access, i, |access|) && Given(known, access[i], names).Some? ==>
         access[i].user in roleOf && roleOf[access[i].user] == Given(known, access[i], names).value)
  }

  // Whom the import gives no role keeps what they had.
  ghost predicate RestKeepTheirs(access: seq<AccessRow>, known: Users, names: Names, before: Assigned, roleOf: Assigned)
  {
    forall user ::
      (forall i :: 0 <= i < |access| && access[i].user == user ==> Given(known, access[i], names).None?) ==>
      (user in roleOf <==> user in before) && (user in before ==> roleOf[user] == before[user])
  }

  method Apply(users: seq<UserRow>, access: seq<AccessRow>, companies: set<string>, rolesBefore: Roles,
          before: Assigned)
    returns (roles: Roles, roleOf: Assigned)
    requires forall i :: 0 <= i < |access| ==> Clean(access[i].permissions) && access[i].role != ADMINISTRATOR
    ensures exists known: Users, names: Names, lists: map<RoleKey, seq<string>> ::
      && Applied(users, access, known, names, lists, roles, WithAdministrators(rolesBefore, companies), roleOf)
      && RestKeepTheirs(access, known, names, before, roleOf) && Titled(names, known, access, |access|)
  {
    var known := UsersByLegacy(users);
    var names: Names;
    ghost var lists: map<RoleKey, seq<string>>;
    roles, names, lists := CreateRoles(access, known, WithAdministrators(rolesBefore, companies));
    roleOf := AssignRoles(access, known, names, before);
    assert RestKeepTheirs(access, known, names, before, roleOf);
    assert Applied(users, access, known, names, lists, roles, WithAdministrators(rolesBefore, companies), roleOf);
  }
}
