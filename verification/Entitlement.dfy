// What a company holds, and what that lets one person do
// (internal/repository/access_repository.go, internal/platform/authctx/principal.go and
// product.go). The permission catalogue and the registry of sellable features are parameters.
module Entitlement {
  import opened Prelude

  const SHARED := "shared"
  const REVOKE := "revoke"

  // One entitlement row, in force on the days from `from` to `until`.
  datatype ModuleRow = ModuleRow(enabled: bool, from: Option<int>, until: Option<int>)

  // A company's statements: its rows by (product, module), and a mode per product.
  datatype Company = Company(rows: map<(string, string), ModuleRow>, modes: map<string, string>)

  // Sellable features per product, by name; true marks one declared but not built.
  type Registry = map<string, map<string, bool>>

  // Permission keys per product with the feature gating each; empty means ungated.
  type Catalog = map<string, map<string, string>>

  predicate InForce(row: ModuleRow, today: int) {
    (row.from.None? || row.from.value <= today) && (row.until.None? || row.until.value >= today)
  }

  // ---- What is held: the reading of rows -----------------------------------------------------------

  predicate Stated(c: Company, today: int, product: string, feature: string) {
    (product, feature) in c.rows && InForce(c.rows[(product, feature)], today)
  }

  // In revoke mode an absent row means held; in any other, and without a mode, denied.
  predicate Holds(c: Company, today: int, registry: Registry, product: string, feature: string) {
    if product in c.modes && c.modes[product] == REVOKE then
      && product in registry && feature in registry[product] && !registry[product][feature]
      && (Stated(c, today, product, feature) ==> c.rows[(product, feature)].enabled)
    else
      Stated(c, today, product, feature) && c.rows[(product, feature)].enabled
  }

  // The same, said of the rows and their dates: a row counts from its first day to its last, both
  // included, and an absent date is open.
  ghost predicate Listed(c: Company, today: int, registry: Registry, product: string, feature: string) {
    var k := (product, feature);
    var counts := k in c.rows
      && (c.rows[k].from.Some? ==> c.rows[k].from.value <= today)
      && (c.rows[k].until.Some? ==> today <= c.rows[k].until.value);
    if product in c.modes && c.modes[product] == "revoke" then
      && product in registry && feature in registry[product] && registry[product][feature] == false
      && !(counts && !c.rows[k].enabled)
    else counts && c.rows[k].enabled
  }

  lemma HoldsIff(c: Company, today: int, registry: Registry, product: string, feature: string)
    ensures Holds(c, today, registry, product, feature) <==> Listed(c, today, registry, product, feature)
  {
  }

  // In grant mode an enabled row is held exactly on the days between its dates; in revoke mode a
  // disabled row takes a sellable, built feature away exactly on those days.
  lemma RowWorksBetween(c: Company, registry: Registry, product: string, feature: string, from: int, until: int,
          day: int)
    ensures
      var k := (product, feature);
      var sold, taken := c.(rows := c.rows[k := ModuleRow(true, Some(from), Some(until))]),
        c.(rows := c.rows[k := ModuleRow(false, Some(from), Some(until))]);
      var revoking := product in c.modes && c.modes[product] == REVOKE;
      && (!revoking ==> (Holds(sold, day, registry, product, feature) <==> from <= day <= until))
      && (!revoking ==> !Holds(taken, day, registry, product, feature))
      && (revoking && product in registry && feature in registry[product] && !registry[product][feature] ==>
            && Holds(sold, day, registry, product, feature)
            && (Holds(taken, day, registry, product, feature) <==> !(from <= day <= until)))
  {
  }

  // A row without dates counts on every day.
  lemma UndatedRowAlwaysWorks(c: Company, registry: Registry, product: string, feature: string, day: int)
    requires product !in c.modes || c.modes[product] != REVOKE
    ensures
      Holds(c.(rows := c.rows[(product, feature) := ModuleRow(true, None, None)]), day, registry, product, feature)
    ensures !Holds(c.(rows := c.rows - {(product, feature)}), day, registry, product, feature)
  {
  }

  type Features = map<string, seq<string>>

  function FeaturesOf(f: Features, product: string): seq<string> {
    if product in f then f[product] else []
  }

  // The list describes the company: for each product exactly what it holds, and no product
  // with nothing.
  ghost predicate Describes(f: Features, c: Company, today: int, registry: Registry) {
    && (forall p :: p in f ==> f[p] != [])
    && (forall p, m :: m in FeaturesOf(f, p) <==> Holds(c, today, registry, p, m))
  }

  // Rows in force, as the query returns them.
  function Switches(c: Company, today: int): map<(string, string), bool> {
    map k | k in c.rows && InForce(c.rows[k], today) :: c.rows[k].enabled
  }

  function Products(c: Company, today: int): set<string> {
    c.modes.Keys + set k | k in Switches(c, today) :: k.0
  }

  method FeaturesFor(c: Company, today: int, registry: Registry, product: string) returns (out: seq<string>)
    ensures forall m :: m in out <==> Holds(c, today, registry, product, m)
    ensures forall m :: m in out <==> Listed(c, today, registry, product, m)
  {
    forall m ensures Holds(c, today, registry, product, m) <==> Listed(c, today, registry, product, m) {
      HoldsIff(c, today, registry, product, m);
    }
    var enabled := Switches(c, today);
    out := [];
    if product in c.modes && c.modes[product] == REVOKE {
      var todo := if product in registry then registry[product].Keys else {};
      var all := todo;
      while todo != {}
        invariant todo <= all
        invariant forall m :: m in out <==> m in all - todo && Holds(c, today, registry, product, m)
        decreases todo
      {
        var m :| m in todo;
        todo := todo - {m};
        if !registry[product][m] && !((product, m) in enabled && !enabled[(product, m)]) {
          out := out + [m];
        }
      }
    } else {
      var all := set k | k in enabled && k.0 == product :: k.1;
      var todo := all;
      while todo != {}
        invariant todo <= all
        invariant forall m :: m in out <==> m in all - todo && Holds(c, today, registry, product, m)
        decreases todo
      {
        var m :| m in todo;
        todo := todo - {m};
        if enabled[(product, m)] {
          out := out + [m];
        }
      }
    }
  }

  method EntitlementFor(c: Company, today: int, registry: Registry) returns (features: Features)
    ensures Describes(features, c, today, registry)
    ensures forall p :: p in features ==> features[p] != []
    ensures forall p, m :: (p in features && m in features[p]) <==> Listed(c, today, registry, p, m)
  {
    forall p, m ensures Holds(c, today, registry, p, m) <==> Listed(c, today, registry, p, m) {
      HoldsIff(c, today, registry, p, m);
    }
    features := map[];
    var all := Products(c, today);
    var todo := all;
    while todo != {}
      invariant todo <= all
      invariant features.Keys <= all - todo
      invariant forall p :: p in features ==> features[p] != []
      invariant forall p, m :: m in FeaturesOf(features, p) <==> p in all - todo && Holds(c, today, registry, p, m)
      decreases todo
    {
      var p :| p in todo;
      todo := todo - {p};
      var held := FeaturesFor(c, today, registry, p);
      ghost var before := features;
      if held != [] {
        features := features[p := held];
      }
      assert forall q :: q != p ==> FeaturesOf(features, q) == FeaturesOf(before, q);
      assert FeaturesOf(features, p) == held;
    }
    forall p, m | Holds(c, today, registry, p, m) ensures p in all {
      HeldProductIsStated(c, today, registry, p, m);
    }
  }

  // A product never configured holds nothing, under either reading.
  lemma HeldProductIsStated(c: Company, today: int, registry: Registry, product: string, feature: string)
    requires Holds(c, today, registry, product, feature)
    ensures product in Products(c, today)
  {
  }

  // ---- One person's access -------------------------------------------------------------------------

  datatype Role = Role(name: string, grantsAll: bool, permissions: seq<string>)

  datatype Extra = Extra(product: string, permissions: seq<string>)

  datatype ProductAccess = ProductAccess(role: string, grantsAll: bool, permissions: seq<string>, features: seq<string>)

  type Access = map<string, ProductAccess>

  // A role's key names its product before the first colon.
  function Cut(key: string): Option<(string, string)> {
    if key == "" then None
    else if key[0] == ':' then Some(("", key[1..]))
    else
      var rest := Cut(key[1..]);
      if rest.None? then None else Some(([key[0]] + rest.value.0, rest.value.1))
  }

  lemma {:induction false} CutIsQualified(key: string, product: string, bare: string)
    ensures Cut(key) == Some((product, bare)) <==> ':' !in product && key == product + ":" + bare
  {
    if key != "" && key[0] != ':' {
      if product != "" {
        CutIsQualified(key[1..], product[1..], bare);
        assert product == [product[0]] + product[1..];
        if key == product + ":" + bare {
          assert key[1..] == product[1..] + ":" + bare;
        }
        if key[0] == product[0] && key[1..] == product[1..] + ":" + bare {
          assert key == [key[0]] + key[1..];
        }
      } else {
        assert (product + ":" + bare)[0] == ':';
      }
    } else if key != "" {
      if product == "" {
        assert product + ":" + bare == [':'] + bare;
        assert key == [':'] + key[1..];
      } else {
        assert (product + ":" + bare)[0] == product[0];
      }
    }
  }

  function RoleKeys(permissions: seq<string>, product: string): seq<string> {
    if permissions == [] then []
    else
      var last := Cut(permissions[|permissions| - 1]);
      RoleKeys(permissions[..|permissions| - 1], product) +
      if last.Some? && last.value.0 == product then [last.value.1] else []
  }

  function ExtraKeys(extras: seq<Extra>, product: string): seq<string> {
    if extras == [] then []
    else
      var last := extras[|extras| - 1];
      ExtraKeys(extras[..|extras| - 1], product) + if last.product == product then last.permissions else []
  }

  function RoleProducts(permissions: seq<string>): set<string> {
    set key | key in permissions && Cut(key).Some? :: Cut(key).value.0
  }

  function ExtraProducts(extras: seq<Extra>): set<string> {
    set e | e in extras :: e.product
  }

  function Dedupe(s: seq<string>): seq<string> {
    if s == [] then []
    else
      var front := Dedupe(s[..|s| - 1]);
      if s[|s| - 1] in front then front else front + [s[|s| - 1]]
  }

  lemma {:induction false} DedupeKeepsMembers(s: seq<string>, x: string)
    ensures x in Dedupe(s) <==> x in s
  {
    if s != [] {
      DedupeKeepsMembers(s[..|s| - 1], x);
      DedupeKeepsMembers(s[..|s| - 1], s[|s| - 1]);
      assert s == s[..|s| - 1] + [s[|s| - 1]];
    }
  }

  // Once each, in the order they first appear.
  lemma {:induction false} DedupeKeepsFirsts(s: seq<string>, x: string)
    ensures forall i, j :: 0 <= i < j < |Dedupe(s)| ==> Dedupe(s)[i] != Dedupe(s)[j]
    ensures Dedupe(s + [x]) == if x in s then Dedupe(s) else Dedupe(s) + [x]
  {
    assert (s + [x])[..|s|] == s;
    DedupeKeepsMembers(s, x);
    if s != [] {
      DedupeKeepsFirsts(s[..|s| - 1], s[|s| - 1]);
      assert s[..|s| - 1] + [s[|s| - 1]] == s;
    }
  }

  function Assembled(role: Role, extras: seq<Extra>, features: Features): Access {
    map p | p in (features.Keys - {SHARED}) + RoleProducts(role.permissions) + ExtraProducts(extras) ::
      Entry(role, Dedupe(RoleKeys(role.permissions, p) + ExtraKeys(extras, p)), features, p)
  }

  function KeysOf(m: map<string, seq<string>>, product: string): seq<string> {
    if product in m then m[product] else []
  }

  method DedupeList(s: seq<string>) returns (out: seq<string>)
    ensures out == Dedupe(s)
  {
    out := [];
    var seen: set<string> := {};
    for i := 0 to |s|
      invariant out == Dedupe(s[..i]) && seen == set x | x in out
    {
      assert s[..i + 1][..i] == s[..i];
      if s[i] !in seen {
        seen := seen + {s[i]};
        out := out + [s[i]];
      }
    }
    assert s[..|s|] == s;
  }

  lemma RoleKeysGrow(front: seq<string>, key: string, product: string)
    ensures RoleKeys(front + [key], product) ==
      RoleKeys(front, product) + if Cut(key).Some? && Cut(key).value.0 == product then [Cut(key).value.1] else []
    ensures RoleProducts(front + [key]) == RoleProducts(front) + if Cut(key).Some? then {Cut(key).value.0} else {}
  {
  }

  lemma ExtraKeysGrow(front: seq<Extra>, e: Extra, product: string)
    ensures ExtraKeys(front + [e], product) ==
      ExtraKeys(front, product) + if e.product == product then e.permissions else []
    ensures ExtraProducts(front + [e]) == ExtraProducts(front) + {e.product}
  {
  }

  ghost predicate Filed(keys: map<string, seq<string>>, permissions: seq<string>) {
    keys.Keys == RoleProducts(permissions) && forall p :: KeysOf(keys, p) == RoleKeys(permissions, p)
  }

  function WithKey(keys: map<string, seq<string>>, key: string): map<string, seq<string>> {
    match Cut(key)
    case Some((product, unqualified)) => keys[product := KeysOf(keys, product) + [unqualified]]
    case None => keys
  }

  lemma FiledOneMore(keys: map<string, seq<string>>, front: seq<string>, key: string)
    requires Filed(keys, front)
    ensures Filed(WithKey(keys, key), front + [key])
  {
    RoleKeysGrow(front, key, "");
    forall p ensures KeysOf(WithKey(keys, key), p) == RoleKeys(front + [key], p) {
      RoleKeysGrow(front, key, p);
    }
  }

  method FromRole(permissions: seq<string>) returns (keys: map<string, seq<string>>)
    ensures keys.Keys == RoleProducts(permissions)
    ensures forall p :: KeysOf(keys, p) == RoleKeys(permissions, p)
  {
    keys := map[];
    for i := 0 to |permissions|
      invariant Filed(keys, permissions[..i])
    {
      assert permissions[..i + 1] == permissions[..i] + [permissions[i]];
      FiledOneMore(keys, permissions[..i], permissions[i]);
      var cut := Cut(permissions[i]);
      if cut.Some? {
        keys := keys[cut.value.0 := KeysOf(keys, cut.value.0) + [cut.value.1]];
      }
    }
    assert permissions[..|permissions|] == permissions;
  }

  // The keys gathered so far are the role's and these extras', product by product.
  ghost predicate Gathered(keys: map<string, seq<string>>, permissions: seq<string>, extras: seq<Extra>) {
    && keys.Keys == RoleProducts(permissions) + ExtraProducts(extras)
    && forall p :: KeysOf(keys, p) == RoleKeys(permissions, p) + ExtraKeys(extras, p)
  }

  function WithExtra(keys: map<string, seq<string>>, e: Extra): map<string, seq<string>> {
    keys[e.product := KeysOf(keys, e.product) + e.permissions]
  }

  lemma GatherOneMore(keys: map<string, seq<string>>, permissions: seq<string>, extras: seq<Extra>, e: Extra)
    requires Gathered(keys, permissions, extras)
    ensures Gathered(WithExtra(keys, e), permissions, extras + [e])
  {
    ExtraKeysGrow(extras, e, e.product);
    forall p ensures KeysOf(WithExtra(keys, e), p) == RoleKeys(permissions, p) + ExtraKeys(extras + [e], p) {
      OneProductMore(keys, e, RoleKeys(permissions, p), ExtraKeys(extras, p), p);
      ExtraKeysGrow(extras, e, p);
    }
  }

  lemma {:induction false} OneProductMore(keys: map<string, seq<string>>, e: Extra, held: seq<string>, had: seq<string>,
          p: string)
    requires KeysOf(keys, p) == held + had
    ensures KeysOf(WithExtra(keys, e), p) == held + (had + if e.product == p then e.permissions else [])
  {
  }

  lemma GatherRole(keys: map<string, seq<string>>, permissions: seq<string>)
    requires keys.Keys == RoleProducts(permissions)
    requires forall p :: KeysOf(keys, p) == RoleKeys(permissions, p)
    ensures Gathered(keys, permissions, [])
  {
  }

  method PerProduct(role: Role, extras: seq<Extra>) returns (keys: map<string, seq<string>>)
    ensures Gathered(keys, role.permissions, extras)
  {
    keys := FromRole(role.permissions);
    GatherRole(keys, role.permissions);
    assert extras[..0] == [];
    for i := 0 to |extras|
      invariant Gathered(keys, role.permissions, extras[..i])
    {
      GatherOneMore(keys, role.permissions, extras[..i], extras[i]);
      assert extras[..i + 1] == extras[..i] + [extras[i]];
      keys := WithExtra(keys, extras[i]);
    }
    assert extras[..|extras|] == extras;
  }

  function Entry(role: Role, permissions: seq<string>, features: Features, product: string): ProductAccess {
    ProductAccess(role.name, role.grantsAll, permissions, FeaturesOf(features, product) + FeaturesOf(features, SHARED))
  }

  method Assemble(role: Role, extras: seq<Extra>, features: Features) returns (out: Access)
    ensures out == Assembled(role, extras, features)
    // Each entry names the role, says whether it grants everything, and lists the product's own
    // features and then the shared ones.
    ensures forall p :: p in out ==>
      && out[p].role == role.name && out[p].grantsAll == role.grantsAll
      && out[p].features ==
           (if p in features then features[p] else []) + (if "shared" in features then features["shared"] else [])
  {
    var keys := PerProduct(role, extras);
    var all := (features.Keys - {SHARED}) + keys.Keys;
    var todo := all;
    out := map[];
    while todo != {}
      invariant todo <= all && out.Keys == all - todo
      invariant forall p :: p in out ==> out[p] == Entry(role, Dedupe(KeysOf(keys, p)), features, p)
      decreases todo
    {
      var p :| p in todo;
      todo := todo - {p};
      var permissions := DedupeList(KeysOf(keys, p));
      out := out[p := Entry(role, permissions, features, p)];
    }
  }

  // ---- The decision --------------------------------------------------------------------------------

  function FeatureFor(catalog: Catalog, product: string, key: string): Option<string> {
    if product in catalog && key in catalog[product] then Some(catalog[product][key]) else None
  }

  predicate HasPermission(staff: bool, access: Access, catalog: Catalog, product: string, key: string) {
    if staff then true
    else if product !in access then false
    else if !access[product].grantsAll && key !in access[product].permissions then false
    else
      var feature := FeatureFor(catalog, product, key);
      feature.Some? && (feature.value == "" || feature.value in access[product].features)
  }

  // ---- The decision against the rows it came from --------------------------------------------------

  ghost predicate GrantedByRole(role: Role, product: string, key: string) {
    ':' !in product && product + ":" + key in role.permissions
  }

  ghost predicate GrantedByExtra(extras: seq<Extra>, product: string, key: string) {
    exists i :: 0 <= i < |extras| && extras[i].product == product && key in extras[i].permissions
  }

  // A product is reached through the company's own features in it, a role's key for it, or a
  // row of extras for it, even an empty one.
  ghost predicate Reaches(role: Role, extras: seq<Extra>, c: Company, today: int, registry: Registry, product: string) {
    || (product != SHARED && exists m :: Holds(c, today, registry, product, m))
    || (exists key :: key in role.permissions && Cut(key).Some? && Cut(key).value.0 == product)
    || (exists e :: e in extras && e.product == product)
  }

  lemma {:induction false} RoleKeysAre(permissions: seq<string>, product: string, key: string)
    ensures key in RoleKeys(permissions, product) <==> ':' !in product && product + ":" + key in permissions
  {
    if permissions != [] {
      var front, last := permissions[..|permissions| - 1], permissions[|permissions| - 1];
      RoleKeysAre(front, product, key);
      CutIsQualified(last, product, key);
      assert permissions == front + [last];
    }
  }

  lemma {:induction false} ExtraKeysAre(extras: seq<Extra>, product: string, key: string)
    ensures key in ExtraKeys(extras, product) <==> GrantedByExtra(extras, product, key)
  {
    if extras != [] {
      var front := extras[..|extras| - 1];
      ExtraKeysAre(front, product, key);
      if i :| 0 <= i < |front| && front[i].product == product && key in front[i].permissions {
        assert extras[i].product == product;
      }
      if i :| 0 <= i < |extras| && extras[i].product == product && key in extras[i].permissions {
        assert i < |front| ==> front[i].product == product && key in front[i].permissions;
      }
    }
  }

  // For every role, extras, rows, modes, catalogue and registry: a person passes exactly when the
  // product is reached, the key is catalogued, it is granted by role or extras or the role grants
  // all, and its gate is empty or held under the product or shared.
  lemma PermissionIff(role: Role, extras: seq<Extra>, features: Features, c: Company, today: int, registry: Registry,
          catalog: Catalog, product: string, key: string)
    requires Describes(features, c, today, registry)
    ensures HasPermission(true, Assembled(role, extras, features), catalog, product, key)
    ensures HasPermission(false, Assembled(role, extras, features), catalog, product, key) <==>
      && Reaches(role, extras, c, today, registry, product)
      && (role.grantsAll || GrantedByRole(role, product, key) || GrantedByExtra(extras, product, key))
      && product in catalog && key in catalog[product]
      && var gate := catalog[product][key];
         gate == "" || Holds(c, today, registry, product, gate) || Holds(c, today, registry, SHARED, gate)
  {
    var access := Assembled(role, extras, features);
    ReachedIff(role, extras, features, c, today, registry, product);
    DedupeKeepsMembers(RoleKeys(role.permissions, product) + ExtraKeys(extras, product), key);
    RoleKeysAre(role.permissions, product, key);
    ExtraKeysAre(extras, product, key);
    if product in access && FeatureFor(catalog, product, key).Some? {
      var gate := FeatureFor(catalog, product, key).value;
      assert gate in access[product].features <==>
        gate in FeaturesOf(features, product) || gate in FeaturesOf(features, SHARED);
    }
  }

  lemma ReachedIff(role: Role, extras: seq<Extra>, features: Features, c: Company, today: int, registry: Registry,
          product: string)
    requires Describes(features, c, today, registry)
    ensures product in Assembled(role, extras, features) <==> Reaches(role, extras, c, today, registry, product)
  {
    if product in features {
      assert features[product][0] in FeaturesOf(features, product);
    }
    if m :| Holds(c, today, registry, product, m) {
      assert m in FeaturesOf(features, product);
    }
  }

  // Extras can only add.
  lemma ExtrasOnlyAdd(role: Role, extras: seq<Extra>, more: seq<Extra>, features: Features, c: Company, today: int,
          registry: Registry, catalog: Catalog, product: string, key: string)
    requires Describes(features, c, today, registry)
    ensures
      && (forall i :: 0 <= i < |extras| ==> extras[i] in more)
      && HasPermission(false, Assembled(role, extras, features), catalog, product, key) ==>
      HasPermission(false, Assembled(role, more, features), catalog, product, key)
  {
    PermissionIff(role, extras, features, c, today, registry, catalog, product, key);
    PermissionIff(role, more, features, c, today, registry, catalog, product, key);
    if forall i :: 0 <= i < |extras| ==> extras[i] in more {
      if i :| 0 <= i < |extras| && extras[i].product == product && key in extras[i].permissions {
        var j :| 0 <= j < |more| && more[j] == extras[i];
        assert GrantedByExtra(more, product, key);
      }
    }
  }

  // An administrator of a company that holds only shared features reaches no product at all.
  lemma SharedAloneReachesNothing(role: Role, features: Features, c: Company, today: int, registry: Registry,
          catalog: Catalog, product: string, key: string)
    requires Describes(features, c, today, registry) && role.permissions == []
    requires forall p, m :: Holds(c, today, registry, p, m) ==> p == SHARED
    ensures Assembled(role, [], features) == map[]
    ensures !HasPermission(false, Assembled(role, [], features), catalog, product, key)
  {
    forall p ensures p !in Assembled(role, [], features) {
      ReachedIff(role, [], features, c, today, registry, p);
    }
  }
}
