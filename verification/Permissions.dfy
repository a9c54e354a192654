// Offering, saving and using permissions (internal/services/user_service.go), and granting and
// withdrawing what they rest on (internal/repository/module_repository.go).
module Permissions {
  import opened Prelude
  import opened Entitlement
  import RS = RevocationStore
  import Sessions
  import Strings

  // ---- What a company holds, for a screen ------------------------------------------------------------

  method ActiveForCompany(c: Company, today: int, registry: Registry, product: string) returns (modules: seq<string>)
    ensures Strings.Sorted(modules)
    ensures forall m :: m in modules <==> Holds(c, today, registry, product, m) || Holds(c, today, registry, SHARED, m)
  {
    var features := EntitlementFor(c, today, registry);
    var both := FeaturesOf(features, product) + FeaturesOf(features, SHARED);
    modules := Strings.Sort(both);
    Strings.SameMembers(modules, both);
    forall m ensures m in modules <==> m in both {
      assert m in modules <==> m in Strings.Members(modules);
      assert m in both <==> m in Strings.Members(both);
    }
  }

  // A key may be assigned when it is catalogued and ungated, or its gate is held.
  predicate Assignable(catalog: Catalog, product: string, held: set<string>, key: string) {
    var gate := FeatureFor(catalog, product, key);
    gate.Some? && (gate.value == "" || gate.value in held)
  }

  // The catalogue narrowed to the features held: what the permission editor offers.
  method GrantableFrom(catalog: Catalog, product: string, held: seq<string>) returns (keys: seq<string>)
    ensures forall k :: k in keys <==> Assignable(catalog, product, Strings.Members(held), k)
    ensures Strings.Distinct(keys)
  {
    keys := [];
    var all := if product in catalog then catalog[product].Keys else {};
    var todo := all;
    while todo != {}
      invariant todo <= all && Strings.Distinct(keys)
      invariant forall k :: k in keys <==> k in all - todo && Assignable(catalog, product, Strings.Members(held), k)
      decreases todo
    {
      var k :| k in todo;
      assert k !in keys;
      todo := todo - {k};
      if catalog[product][k] == "" || catalog[product][k] in held {
        keys := keys + [k];
      }
    }
  }

  datatype SaveError =
    | NotFound | Forbidden | NotAPermission(key: string) | NotEntitled(feature: string) | AlreadyAdministrator

  // The first key of the list that may not be assigned, and what is wrong with it.
  predicate FirstRefused(catalog: Catalog, product: string, held: set<string>, permissions: seq<string>, i: int) {
    && 0 <= i < |permissions| && !Assignable(catalog, product, held, permissions[i])
    && forall j :: 0 <= j < i ==> Assignable(catalog, product, held, permissions[j])
  }

  function Refusal(catalog: Catalog, product: string, key: string): SaveError {
    var gate := FeatureFor(catalog, product, key);
    if gate.None? then NotAPermission(key) else NotEntitled(gate.value)
  }

  // Vets a list the way it will be saved; the first key that fails decides the error.
  method AssertGrantable(catalog: Catalog, product: string, entitled: seq<string>, permissions: seq<string>)
    returns (r: Result<(), SaveError>)
    ensures r.Ok? <==>
      forall i :: 0 <= i < |permissions| ==> Assignable(catalog, product, Strings.Members(entitled), permissions[i])
    ensures r.Err? ==>
      exists i ::
        && FirstRefused(catalog, product, Strings.Members(entitled), permissions, i)
        && r.error == Refusal(catalog, product, permissions[i])
    // A key outside the catalogue is no permission; one whose gate is not held is not entitled.
    ensures r.Err? ==>
      exists i ::
        && 0 <= i < |permissions|
        && (r.error == NotAPermission(permissions[i]) <==> !(product in catalog && permissions[i] in catalog[product]))
        && (product in catalog && permissions[i] in catalog[product] ==>
              r.error == NotEntitled(catalog[product][permissions[i]]) && r.error.feature !in entitled)
  {
    var held := Strings.Members(entitled);
    for i := 0 to |permissions|
      invariant forall j :: 0 <= j < i ==> Assignable(catalog, product, held, permissions[j])
    {
      var feature := FeatureFor(catalog, product, permissions[i]);
      if feature.None? {
        assert FirstRefused(catalog, product, held, permissions, i);
        return Err(NotAPermission(permissions[i]));
      }
      if feature.value == "" {
        continue;
      }
      if feature.value !in held {
        assert FirstRefused(catalog, product, held, permissions, i);
        return Err(NotEntitled(feature.value));
      }
    }
    return Ok(());
  }

  // The editor, the save and the token agree: a key is offered exactly when saving it alone is
  // accepted, and a list is accepted exactly when every key in it is offered.
  method OfferAndSaveAgree(c: Company, today: int, registry: Registry, catalog: Catalog, product: string,
          permissions: seq<string>)
    returns (offered: seq<string>, saved: Result<(), SaveError>)
    ensures saved.Ok? <==> forall i :: 0 <= i < |permissions| ==> permissions[i] in offered
    ensures forall k :: k in offered <==>
      && product in catalog && k in catalog[product]
      && var gate := catalog[product][k];
         gate == "" || Holds(c, today, registry, product, gate) || Holds(c, today, registry, SHARED, gate)
  {
    var entitled := ActiveForCompany(c, today, registry, product);
    offered := GrantableFrom(catalog, product, entitled);
    saved := AssertGrantable(catalog, product, entitled, permissions);
  }

  // ---- Saving -----------------------------------------------------------------------------------------

  datatype Account = Account(company: Option<string>, role: Role)

  // A row of extras per person and product.
  datatype ExtraRow = ExtraRow(permissions: seq<string>, enabled: bool)

  type ExtraTable = map<(string, string), ExtraRow>

  class UserService {
    var accounts: map<string, Account>
    var extras: ExtraTable
    const sessions: Sessions.SessionRepository
    const catalog: Catalog
    const registry: Registry

    constructor (accounts: map<string, Account>, extras: ExtraTable, sessions: Sessions.SessionRepository,
            catalog: Catalog, registry: Registry)
      ensures this.accounts == accounts && this.extras == extras && this.sessions == sessions
      ensures this.catalog == catalog && this.registry == registry
    {
      this.accounts, this.extras, this.sessions := accounts, extras, sessions;
      this.catalog, this.registry := catalog, registry;
    }

    predicate Known(actor: string, target: string)
      reads this
    {
      actor in accounts && target in accounts
    }

    predicate Colleagues(actor: string, target: string)
      reads this
    {
      Known(actor, target) && accounts[actor].company.Some? && accounts[actor].company == accounts[target].company
    }

    // Replaces a colleague's extras in one product, if every key may be assigned, and ends their
    // sessions: the permissions are in the tokens they hold.
    method SetPermission(actor: string, target: string, product: string, permissions: seq<string>, c: Company,
            today: int, now: int, write: RS.Reply, announce: RS.Reply)
      returns (r: Result<(), SaveError>)
      requires now != RS.ZERO_TIME
      modifies this`extras, sessions, sessions.announcer
      ensures r.Err? ==> extras == old(extras) && sessions.rows == old(sessions.rows)
      ensures r.Ok? ==> extras == old(extras)[(target, product) := ExtraRow(permissions, true)]
      // Their open sessions end, and nobody else's.
      ensures r.Ok? ==> Sessions.EndsExactly(old(sessions.rows), sessions.rows,
        (_: string, row: Sessions.Row) => row.user == target && row.revoked.None?, now)
      ensures r.Ok? <==>
        Colleagues(actor, target) && !accounts[target].role.grantsAll && AllHeld(c, today, permissions, product)
      // One reason each, in the order they are looked at.
      ensures r == Err(NotFound) <==> !Known(actor, target)
      ensures r == Err(Forbidden) <==> Known(actor, target) && !Colleagues(actor, target)
      ensures r == Err(AlreadyAdministrator) <==> Colleagues(actor, target) && accounts[target].role.grantsAll
      ensures r.Err? && Colleagues(actor, target) && !accounts[target].role.grantsAll ==>
        exists i ::
          FirstNotHeld(c, today, permissions, product, i) && r.error == Refusal(catalog, product, permissions[i])
    {
      if actor !in accounts || target !in accounts {
        return Err(NotFound);
      }
      var own, other := accounts[actor].company, accounts[target].company;
      if own.None? || other.None? || own != other {
        return Err(Forbidden);
      }
      if accounts[target].role.grantsAll {
        return Err(AlreadyAdministrator);
      }
      var vetted := Vet(c, today, permissions, product);
      if vetted.Err? {
        return vetted;
      }
      extras := extras[(target, product) := ExtraRow(permissions, true)];
      var _ := sessions.RevokeAllForUser(target, now, write, announce);
      return Ok(());
    }

    // A key may be assigned when it is catalogued and ungated, or the company holds its gate.
    predicate KeyHeld(c: Company, today: int, product: string, key: string) {
      && product in catalog && key in catalog[product]
      && var gate := catalog[product][key];
         gate == "" || Holds(c, today, registry, product, gate) || Holds(c, today, registry, SHARED, gate)
    }

    predicate AllHeld(c: Company, today: int, permissions: seq<string>, product: string) {
      forall i :: 0 <= i < |permissions| ==> KeyHeld(c, today, product, permissions[i])
    }

    predicate FirstNotHeld(c: Company, today: int, permissions: seq<string>, product: string, i: int) {
      && 0 <= i < |permissions| && !KeyHeld(c, today, product, permissions[i])
      && forall j :: 0 <= j < i ==> KeyHeld(c, today, product, permissions[j])
    }

    method Vet(c: Company, today: int, permissions: seq<string>, product: string) returns (r: Result<(), SaveError>)
      ensures r.Ok? <==> AllHeld(c, today, permissions, product)
      ensures r.Err? ==>
        exists i ::
          FirstNotHeld(c, today, permissions, product, i) && r.error == Refusal(catalog, product, permissions[i])
      ensures r.Err? ==> r.error.NotAPermission? || r.error.NotEntitled?
    {
      var entitled := ActiveForCompany(c, today, registry, product);
      forall key
        ensures Assignable(catalog, product, Strings.Members(entitled), key) <==> KeyHeld(c, today, product, key)
      {
      }
      r := AssertGrantable(catalog, product, entitled, permissions);
      if r.Err? {
        var i :| FirstRefused(catalog, product, Strings.Members(entitled), permissions, i)
          && r.error == Refusal(catalog, product, permissions[i]);
        assert FirstNotHeld(c, today, permissions, product, i);
      }
    }
  }

  // The enabled rows of one person, in any order.
  ghost predicate IsExtrasOf(rows: seq<Extra>, table: ExtraTable, user: string) {
    forall e :: e in rows <==> (user, e.product) in table && table[(user, e.product)] == ExtraRow(e.permissions, true)
  }

  // What a person's extras grant is what an enabled row of theirs lists.
  lemma ExtrasAre(rows: seq<Extra>, table: ExtraTable, user: string, product: string, key: string)
    requires IsExtrasOf(rows, table, user)
    ensures GrantedByExtra(rows, product, key) <==>
      && (user, product) in table && table[(user, product)].enabled && key in table[(user, product)].permissions
  {
    if (user, product) in table && table[(user, product)].enabled {
      assert Extra(product, table[(user, product)].permissions) in rows;
    }
  }

  // Every key a save accepted works: the next access map built for that person passes it, in
  // either mode, as long as the company holds what it held.
  lemma SavedKeysWork(table: ExtraTable, target: string, role: Role, rows: seq<Extra>, features: Features, c: Company,
          today: int, registry: Registry, catalog: Catalog, product: string, permissions: seq<string>, i: nat)
    requires (target, product) in table && table[(target, product)] == ExtraRow(permissions, true)
    requires IsExtrasOf(rows, table, target) && Describes(features, c, today, registry)
    requires i < |permissions| && FeatureFor(catalog, product, permissions[i]).Some?
    requires var gate := FeatureFor(catalog, product, permissions[i]).value;
      gate == "" || Holds(c, today, registry, product, gate) || Holds(c, today, registry, SHARED, gate)
    ensures HasPermission(false, Assembled(role, rows, features), catalog, product, permissions[i])
  {
    var e := Extra(product, permissions);
    assert e in rows;
    var j :| 0 <= j < |rows| && rows[j] == e;
    assert GrantedByExtra(rows, product, permissions[i]);
    PermissionIff(role, rows, features, c, today, registry, catalog, product, permissions[i]);
  }

  // ---- Granting and withdrawing -------------------------------------------------------------------------

  function Granted(c: Company, product: string, feature: string, row: ModuleRow): Company {
    c.(rows := c.rows[(product, feature) := row])
  }

  // A row is disabled where it stands; with none, revoke mode writes the row that says so.
  function Withdrawn(c: Company, product: string, feature: string): Option<Company> {
    var k := (product, feature);
    if k in c.rows then Some(c.(rows := c.rows[k := c.rows[k].(enabled := false)]))
    else if product in c.modes && c.modes[product] == REVOKE then
      Some(c.(rows := c.rows[k := ModuleRow(false, None, None)]))
    else None
  }

  class ModuleRepository {
    var companies: map<string, Company>
    var history: seq<(string, string, string, bool)> // company, product, module, granted

    constructor (companies: map<string, Company>)
      ensures this.companies == companies && history == []
    {
      this.companies, history := companies, [];
    }

    method Grant(id: string, product: string, feature: string, row: ModuleRow)
      requires id in companies
      modifies this
      ensures companies == old(companies)[id := Granted(old(companies)[id], product, feature, row)]
      ensures id in companies && companies[id].modes == old(companies)[id].modes
      ensures companies[id].rows == old(companies)[id].rows[(product, feature) := row]
      ensures history == old(history) + [(id, product, feature, row.enabled)]
    {
      companies := companies[id := Granted(companies[id], product, feature, row)];
      history := history + [(id, product, feature, row.enabled)];
    }

    method Revoke(id: string, product: string, feature: string) returns (found: bool)
      requires id in companies
      modifies this
      ensures found == Withdrawn(old(companies)[id], product, feature).Some?
      ensures found ==> companies == old(companies)[id := Withdrawn(old(companies)[id], product, feature).value]
      // The row that is there is disabled and keeps its dates; revoke mode writes one where there is none.
      ensures found <==>
        || (product, feature) in old(companies)[id].rows
        || (product in old(companies)[id].modes && old(companies)[id].modes[product] == "revoke")
      ensures found ==>
        var k, rows := (product, feature), old(companies)[id].rows;
        companies == old(companies)[id := old(companies)[id].(rows :=
          rows[k := if k in rows then rows[k].(enabled := false) else ModuleRow(false, None, None)])]
      ensures found ==> history == old(history) + [(id, product, feature, false)]
      ensures !found ==> companies == old(companies) && history == old(history)
    {
      var c := companies[id];
      var k := (product, feature);
      if k in c.rows {
        c := c.(rows := c.rows[k := c.rows[k].(enabled := false)]);
      } else {
        if product !in c.modes || c.modes[product] != REVOKE {
          return false;
        }
        c := c.(rows := c.rows[k := ModuleRow(false, None, None)]);
      }
      companies := companies[id := c];
      history := history + [(id, product, feature, false)];
      return true;
    }
  }

  // A withdrawal changes nothing but the one feature it names.
  lemma WithdrawalTouchesOneFeature(c: Company, today: int, registry: Registry, product: string, feature: string,
          p: string, m: string)
    requires Withdrawn(c, product, feature).Some? && (p != product || m != feature)
    ensures Holds(Withdrawn(c, product, feature).value, today, registry, p, m) == Holds(c, today, registry, p, m)
  {
  }

  ghost predicate Between(row: ModuleRow, day: int) {
    (row.from.Some? ==> row.from.value <= day) && (row.until.Some? ==> day <= row.until.value)
  }

  // A grant, too, changes nothing but the feature it names.
  lemma GrantTouchesOneFeature(c: Company, today: int, registry: Registry, product: string, feature: string,
          row: ModuleRow, p: string, m: string)
    requires p != product || m != feature
    ensures Holds(Granted(c, product, feature, row), today, registry, p, m) == Holds(c, today, registry, p, m)
  {
  }

  // It takes effect in either mode, except exactly where a row not in force today hides it from
  // a company in revoke mode: the date filter drops that row, and absent means held.
  lemma WithdrawalWorksIff(c: Company, today: int, registry: Registry, product: string, feature: string)
    requires Withdrawn(c, product, feature).Some?
    ensures !Holds(Withdrawn(c, product, feature).value, today, registry, product, feature) <==>
      || product !in c.modes || c.modes[product] != REVOKE
      || (product, feature) !in c.rows || Between(c.rows[(product, feature)], today)
      || product !in registry || feature !in registry[product] || registry[product][feature]
  {
  }

  // And a grant with no dates, or dates that include today, is held in either mode, provided in
  // revoke mode that the feature is sellable and built.
  lemma GrantWorksIff(c: Company, today: int, registry: Registry, product: string, feature: string, row: ModuleRow)
    requires row.enabled && Between(row, today)
    ensures Holds(Granted(c, product, feature, row), today, registry, product, feature) <==>
      || product !in c.modes || c.modes[product] != REVOKE
      || (product in registry && feature in registry[product] && !registry[product][feature])
  {
  }
}
