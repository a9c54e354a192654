// Recording a shipper that has no account yet, and letting it claim its company
// (internal/services/shipper_service.go).
module ShipperService {
  import opened Prelude
  import opened Companies
  import E = Entitlement

  const CLAIM_LIFE := 1_209_600_000_000_000 // fourteen days

  datatype ShipperError =
    | Invalid | ShipperExists | ClaimNotFound | ClaimExpired | AlreadyClaimed | NpwpRequired | OtherHasPeople | Rejected

  // ---- Creating ---------------------------------------------------------------------------------

  // `name` is already trimmed.
  datatype ShipperInput = ShipperInput(name: string, entityType: string, npwp: Option<string>, nib: Option<string>)

  datatype Created = Created(company: Id, existing: bool)

  // The live company a tax number names.
  predicate Holds(db: Db, id: Id, npwp: Option<string>) {
    Live(db, id) && TaxKey(npwp).Some? && TaxKey(db.companies[id].npwp) == TaxKey(npwp)
  }

  lemma HolderIsUnique(db: Db, npwp: Option<string>, a: Id, b: Id)
    requires IndexesHold(db) && Holds(db, a, npwp) && Holds(db, b, npwp)
    ensures a == b
  {
  }

  function Placeholder(npwp: Option<string>, nib: Option<string>): Company {
    Company(false, None, npwp, nib, None, None, None, None, None, 0)
  }

  predicate BadInput(i: ShipperInput) {
    || i.name == ""
    || (i.entityType != "" && i.entityType != "company" && i.entityType != "personal")
    || (i.entityType == "personal" && i.nib.Some? && i.nib.value != "")
  }

  // ---- Claiming ---------------------------------------------------------------------------------

  datatype ClaimInput = ClaimInput(tokenHash: string, npwp: string, hasIdentifier: bool, goodPassword: bool)

  datatype Claimed = Claimed(company: Id, user: Id, duplicateOf: Option<Id>)

  const ADMINISTRATOR := "Administrator"

  predicate LinkNames(db: Db, id: Id, tokenHash: string) {
    Live(db, id) && db.companies[id].claimHash == Some(tokenHash)
  }

  predicate IsDuplicate(db: Db, other: Id, claimed: Id, npwp: string) {
    other != claimed && Live(db, other) && TaxKey(db.companies[other].npwp) == TaxKey(Some(npwp))
  }

  function FoldInTrace(db: Db, keep: Id, loser: Id): (t: seq<Db>)
    requires loser in db.companies
    ensures |t| == 3
  {
    var copied := LinksCopied(db, loser, keep);
    var cleared := LinksCleared(copied, loser);
    [copied, cleared, FoldedAway(cleared, loser, keep)]
  }

  function Numbered(db: Db, id: Id, npwp: string): Db
    requires id in db.companies
  {
    db.(companies := db.companies[id :=
      db.companies[id].(npwp := Some(npwp), claimHash := None, claimExpires := None)])
  }

  function Administered(db: Db, id: Id): Db {
    var k := (id, ADMINISTRATOR);
    var role := if k in db.roles then db.roles[k].(grantsAll := true, isSystem := true) else Role(true, true, []);
    db.(roles := db.roles[k := role])
  }

  function Peopled(db: Db, id: Id, user: Id): Db {
    db.(users := db.users[user := User(Some(id), false, Some((id, ADMINISTRATOR)))])
  }

  // The starting modules, keeping whatever was already stated about any of them.
  function Entitled(db: Db, id: Id, granted: set<string>): Db {
    db.(modules := (map m | m in granted :: (id, "tms", m) := true) + db.modules)
  }

  function Moded(db: Db, id: Id): Db {
    if (id, "tms") in db.modes then db else db.(modes := db.modes[(id, "tms") := "grant"])
  }

  // The database after each of a claim's own writes.
  function TenantTrace(db: Db, id: Id, npwp: string, user: Id, granted: set<string>): (t: seq<Db>)
    requires id in db.companies
    ensures |t| == 5
  {
    var numbered := Numbered(db, id, npwp);
    var administered := Administered(numbered, id);
    var peopled := Peopled(administered, id, user);
    var entitled := Entitled(peopled, id, granted);
    [numbered, administered, peopled, entitled, Moded(entitled, id)]
  }

  function FoldedIn(db: Db, keep: Id, loser: Option<Id>): Db
    requires loser.Some? ==> loser.value in db.companies
  {
    if loser.Some? then FoldInTrace(db, keep, loser.value)[2] else db
  }

  function ClaimedDb(db: Db, id: Id, other: Option<Id>, npwp: string, user: Id, granted: set<string>): Db
    requires id in db.companies && (other.Some? ==> other.value in db.companies)
  {
    TenantTrace(FoldedIn(db, id, other), id, npwp, user, granted)[4]
  }

  // What a claim that reaches its writes knows about the company and its duplicate.
  ghost predicate MayClaim(db: Db, id: Id, other: Option<Id>, npwp: string) {
    && Live(db, id) && ActiveOf(db, id) == {} && TaxKey(Some(npwp)).Some?
    && (other.Some? ==> IsDuplicate(db, other.value, id, npwp) && ActiveOf(db, other.value) == {})
    && (other.None? ==> forall o :: o in db.companies ==> !IsDuplicate(db, o, id, npwp))
  }

  // What a claim holds when it writes: its own row is live and locked since it was found. The
  // duplicate was read without a lock, so nothing is known of it but that it is another row.
  ghost predicate MayWrite(db: Db, id: Id, other: Option<Id>, npwp: string) {
    Live(db, id) && TaxKey(Some(npwp)).Some? && (other.Some? ==> other.value in db.companies && other.value != id)
  }

  // No third live company holds the number by now.
  ghost predicate NumberFree(db: Db, id: Id, other: Option<Id>, npwp: string) {
    forall o :: o in db.companies && Some(o) != other ==> !IsDuplicate(db, o, id, npwp)
  }

  lemma FoldInKeepsIndexes(db: Db, id: Id, other: Id, i: nat)
    requires IndexesHold(db) && other in db.companies && i < 3
    ensures IndexesHold(FoldInTrace(db, id, other)[i])
  {
    SameCompanies(db, FoldInTrace(db, id, other)[1]);
    SameCompanies(db, FoldInTrace(db, id, other)[0]);
    FoldAwayKeepsIndexes(FoldInTrace(db, id, other)[1], other, id);
  }

  lemma NumberedKeepsIndexesIff(db: Db, id: Id, npwp: string)
    requires IndexesHold(db) && Live(db, id) && TaxKey(Some(npwp)).Some?
    ensures IndexesHold(Numbered(db, id, npwp)) <==> NumberFree(db, id, None, npwp)
  {
    var c := Numbered(db, id, npwp).companies[id];
    WriteKeepsTaxUnique(db, id, c);
    forall other | other != id && Live(db, other)
      ensures Clash(c, db.companies[other]) <==> IsDuplicate(db, other, id, npwp)
    {
      assert !Clash(db.companies[id], db.companies[other]);
    }
    assert ClaimsUnique(Numbered(db, id, npwp));
  }

  lemma FoldedInFrees(db: Db, id: Id, other: Option<Id>, npwp: string)
    requires IndexesHold(db) && MayWrite(db, id, other, npwp)
    ensures IndexesHold(FoldedIn(db, id, other)) && Live(FoldedIn(db, id, other), id)
    ensures NumberFree(FoldedIn(db, id, other), id, None, npwp) <==> NumberFree(db, id, other, npwp)
  {
    if other.Some? {
      FoldInKeepsIndexes(db, id, other.value, 2);
      var start := FoldedIn(db, id, other);
      assert start.companies.Keys == db.companies.Keys;
      forall o | o in db.companies
        ensures IsDuplicate(start, o, id, npwp) <==> Some(o) != other && IsDuplicate(db, o, id, npwp)
      {
      }
    }
  }

  // From the statement that records the number on, the unique indexes hold exactly when no third
  // live company holds the number by then.
  lemma ClaimKeepsIndexesIff(db: Db, id: Id, other: Option<Id>, npwp: string, user: Id, granted: set<string>, i: nat)
    requires IndexesHold(db) && MayWrite(db, id, other, npwp) && i < 5
    ensures IndexesHold(TenantTrace(FoldedIn(db, id, other), id, npwp, user, granted)[i]) <==>
      NumberFree(db, id, other, npwp)
  {
    FoldedInFrees(db, id, other, npwp);
    NumberedKeepsIndexesIff(FoldedIn(db, id, other), id, npwp);
    TenantKeepsIndexesIff(FoldedIn(db, id, other), id, npwp, user, granted, i);
  }

  lemma TenantKeepsIndexesIff(start: Db, id: Id, npwp: string, user: Id, granted: set<string>, i: nat)
    requires id in start.companies && i < 5
    ensures IndexesHold(TenantTrace(start, id, npwp, user, granted)[i]) <==> IndexesHold(Numbered(start, id, npwp))
  {
    SameCompanies(Numbered(start, id, npwp), TenantTrace(start, id, npwp, user, granted)[i]);
  }

  // What a claim's look-up finds is enough: with the duplicate it names, no third company
  // holds the number at that moment.
  lemma NumberFreeAtLookUp(db: Db, id: Id, other: Option<Id>, npwp: string)
    requires IndexesHold(db) && MayClaim(db, id, other, npwp)
    ensures MayWrite(db, id, other, npwp) && NumberFree(db, id, other, npwp)
  {
    forall o | o in db.companies && Some(o) != other ensures !IsDuplicate(db, o, id, npwp) {
      if IsDuplicate(db, o, id, npwp) {
        HolderIsUnique(db, Some(npwp), o, other.value);
      }
    }
  }

  // The company keeps its id, gains the number, spends its link, and has exactly one active person,
  // who holds a role that grants everything; nobody else changes.
  ghost predicate BecameTenant(db: Db, after: Db, id: Id, npwp: string, user: Id) {
    && Live(after, id) && after.companies[id].npwp == Some(npwp) && after.companies[id].claimHash.None?
    && ActiveOf(after, id) == {user}
    && user in after.users && after.users[user].role == Some((id, ADMINISTRATOR))
    && (id, ADMINISTRATOR) in after.roles && after.roles[(id, ADMINISTRATOR)].grantsAll
    && (forall u :: u in db.users ==> u in after.users && after.users[u] == db.users[u])
  }

  lemma ClaimMakesATenant(db: Db, id: Id, other: Option<Id>, npwp: string, user: Id, granted: set<string>)
    requires MayWrite(db, id, other, npwp) && ActiveOf(db, id) == {} && user !in db.users
    ensures BecameTenant(db, ClaimedDb(db, id, other, npwp, user, granted), id, npwp, user)
  {
    var start := FoldedIn(db, id, other);
    assert start.users == db.users && Live(start, id);
    TenantIsPeopled(start, id, npwp, user, granted);
  }

  lemma TenantIsPeopled(start: Db, id: Id, npwp: string, user: Id, granted: set<string>)
    requires Live(start, id) && ActiveOf(start, id) == {} && user !in start.users
    ensures
      var after := TenantTrace(start, id, npwp, user, granted)[4];
      && Live(after, id) && after.companies[id].npwp == Some(npwp) && after.companies[id].claimHash.None?
      && ActiveOf(after, id) == {user}
      && after.users == start.users[user := User(Some(id), false, Some((id, ADMINISTRATOR)))]
      && (id, ADMINISTRATOR) in after.roles && after.roles[(id, ADMINISTRATOR)].grantsAll
  {
  }

  // And it can reach something: a starting module is stated, enabled unless it was already stated
  // otherwise, and nothing stated is overwritten.
  ghost predicate Entitles(db: Db, after: Db, id: Id, m: string) {
    && (id, "tms", m) in after.modules && (id, "tms") in after.modes
    && ((id, "tms", m) !in db.modules ==> after.modules[(id, "tms", m)])
    && (forall k :: k in db.modules ==> k in after.modules && after.modules[k] == db.modules[k])
  }

  lemma ClaimEntitles(db: Db, id: Id, other: Option<Id>, npwp: string, user: Id, granted: set<string>, m: string)
    requires MayWrite(db, id, other, npwp) && m in granted
    ensures Entitles(db, ClaimedDb(db, id, other, npwp, user, granted), id, m)
  {
  }

  // What a claim leaves of everything but links, field by field: its own row, the duplicate's, one new
  // person, one role, the starting modules nothing was stated about, and a mode if there was none.
  ghost predicate ClaimLeaves(db: Db, after: Db, id: Id, other: Option<Id>, npwp: string, user: Id,
          granted: set<string>)
    requires id in db.companies && (other.Some? ==> other.value in db.companies)
  {
    var admin := (id, "Administrator");
    var folded := if other.None? then db.companies else db.companies[other.value :=
      db.companies[other.value].(npwp := None, nib := None, mergedInto := Some(id), deleted := true)];
    && after.companies ==
         folded[id := db.companies[id].(npwp := Some(npwp), claimHash := None, claimExpires := None)]
    && after.users == db.users[user := User(Some(id), false, Some(admin))]
    && after.roles ==
         db.roles[admin := Role(true, true, if admin in db.roles then db.roles[admin].permissions else [])]
    && StatementsLeft(db, after, id, "tms", "grant", granted)
  }

  ghost predicate StatementsLeft(db: Db, after: Db, id: Id, own: string, mode: string, granted: set<string>) {
    && (forall k :: k in after.modules <==> k in db.modules || (k.0 == id && k.1 == own && k.2 in granted))
    && (forall k :: k in after.modules ==> after.modules[k] == (k in db.modules ==> db.modules[k]))
    && after.modes == (if (id, own) in db.modes then db.modes else db.modes[(id, own) := mode])
  }

  lemma {:induction false} ClaimedLeaves(db: Db, id: Id, other: Option<Id>, npwp: string, user: Id,
          granted: set<string>)
    requires MayWrite(db, id, other, npwp)
    ensures ClaimLeaves(db, ClaimedDb(db, id, other, npwp, user, granted), id, other, npwp, user, granted)
  {
    var start := FoldedIn(db, id, other);
    assert start.users == db.users && start.roles == db.roles && start.modules == db.modules && start.modes == db.modes;
    assert start.companies[id] == db.companies[id];
    TenantLeaves(start, id, npwp, user, granted);
  }

  lemma {:induction false} TenantLeaves(db: Db, id: Id, npwp: string, user: Id, granted: set<string>)
    requires id in db.companies
    ensures ClaimLeaves(db, TenantTrace(db, id, npwp, user, granted)[4], id, None, npwp, user, granted)
  {
  }

  // A company's own statements, as entitlement reads them; rows carry no dates here.
  function StatementsOf(db: Db, id: Id): E.Company {
    E.Company(
      map k | k in (set m | m in db.modules && m.0 == id :: (m.1, m.2)) ::
        E.ModuleRow(db.modules[(id, k.0, k.1)], None, None),
      map p | p in (set m | m in db.modes && m.0 == id :: m.1) :: db.modes[(id, p)])
  }

  lemma {:induction false} StatementIff(db: Db, id: Id, product: string, feature: string)
    ensures (product, feature) in StatementsOf(db, id).rows <==> (id, product, feature) in db.modules
    ensures (id, product, feature) in db.modules ==>
      StatementsOf(db, id).rows[(product, feature)] == E.ModuleRow(db.modules[(id, product, feature)], None, None)
    ensures product in StatementsOf(db, id).modes <==> (id, product) in db.modes
    ensures (id, product) in db.modes ==> StatementsOf(db, id).modes[product] == db.modes[(id, product)]
  {
    assert (id, product, feature) in db.modules ==>
      (product, feature) in set m | m in db.modules && m.0 == id :: (m.1, m.2);
    assert (id, product) in db.modes ==> product in set m | m in db.modes && m.0 == id :: m.1;
  }

  // What entitlement reads, said of the tables.
  predicate HeldInTables(db: Db, id: Id, registry: E.Registry, product: string, feature: string) {
    if (id, product) in db.modes && db.modes[(id, product)] == E.REVOKE then
      && product in registry && feature in registry[product] && !registry[product][feature]
      && ((id, product, feature) in db.modules ==> db.modules[(id, product, feature)])
    else (id, product, feature) in db.modules && db.modules[(id, product, feature)]
  }

  lemma {:induction false} HeldIff(db: Db, id: Id, today: int, registry: E.Registry, product: string, feature: string)
    ensures E.Holds(StatementsOf(db, id), today, registry, product, feature) <==>
      HeldInTables(db, id, registry, product, feature)
  {
    StatementIff(db, id, product, feature);
  }

  // Unless the company was in revoke mode, a claim gives it exactly the starting modules nothing was
  // stated about; it changes nothing else the company holds, and in revoke mode nothing at all.
  lemma {:induction false} ClaimedHoldsIff(db: Db, after: Db, id: Id, granted: set<string>, today: int,
          registry: E.Registry, product: string, feature: string)
    requires StatementsLeft(db, after, id, "tms", "grant", granted)
    ensures E.Holds(StatementsOf(after, id), today, registry, product, feature) <==>
      || E.Holds(StatementsOf(db, id), today, registry, product, feature)
      || (product == "tms" && !((id, "tms") in db.modes && db.modes[(id, "tms")] == E.REVOKE)
            && feature in granted && (id, "tms", feature) !in db.modules)
  {
    assert "grant"[0] != E.REVOKE[0];
    HeldAfter(db, after, id, "tms", "grant", granted, registry, product, feature);
    HeldIff(db, id, today, registry, product, feature);
    HeldIff(after, id, today, registry, product, feature);
  }

  lemma {:induction false} HeldAfter(db: Db, after: Db, id: Id, own: string, mode: string, granted: set<string>,
          registry: E.Registry, product: string, feature: string)
    requires StatementsLeft(db, after, id, own, mode, granted) && mode != E.REVOKE
    ensures HeldInTables(after, id, registry, product, feature) <==>
      || HeldInTables(db, id, registry, product, feature)
      || (product == own && !((id, own) in db.modes && db.modes[(id, own)] == E.REVOKE)
            && feature in granted && (id, own, feature) !in db.modules)
  {
  }

  // Where nothing was stated the starting modules are all there is.
  lemma {:induction false} ClaimedHoldsExactly(db: Db, after: Db, id: Id, granted: set<string>, today: int,
          registry: E.Registry, product: string, feature: string)
    requires StatementsLeft(db, after, id, "tms", "grant", granted)
    requires (forall k :: k in db.modules ==> k.0 != id) && (forall k :: k in db.modes ==> k.0 != id)
    ensures E.Holds(StatementsOf(after, id), today, registry, product, feature) <==>
      product == "tms" && feature in granted
  {
    ClaimedHoldsIff(db, after, id, granted, today, registry, product, feature);
    HeldIff(db, id, today, registry, product, feature);
  }

  // And everybody else holds what they held.
  lemma {:induction false} ClaimedTouchesNobodyElse(db: Db, after: Db, id: Id, granted: set<string>, third: Id,
          today: int, registry: E.Registry, product: string, feature: string)
    requires StatementsLeft(db, after, id, "tms", "grant", granted) && third != id
    ensures E.Holds(StatementsOf(after, third), today, registry, product, feature) <==>
      E.Holds(StatementsOf(db, third), today, registry, product, feature)
  {
    HeldIff(db, third, today, registry, product, feature);
    HeldIff(after, third, today, registry, product, feature);
  }

  // A link issued at one instant works for exactly fourteen days.
  lemma LinkLivesTwoWeeks(db: Db, id: Id, hash: string, now: int, later: int)
    requires id in db.companies
    ensures Expired(Issued(db, id, hash, now), id, later) <==> later > now + 14 * 24 * 3600 * 1_000_000_000
  {
  }

  // Two tax numbers are one when their digits are, and there are some.
  predicate SameNumber(a: Option<string>, b: Option<string>) {
    a.Some? && b.Some? && Digits(a.value) == Digits(b.value) && Digits(a.value) != ""
  }

  ghost predicate SomebodyHolds(db: Db, npwp: Option<string>) {
    exists o :: o in db.companies && !db.companies[o].deleted && SameNumber(db.companies[o].npwp, npwp)
  }

  lemma HoldsIff(db: Db, id: Id, npwp: Option<string>)
    ensures Holds(db, id, npwp) <==>
      id in db.companies && !db.companies[id].deleted && SameNumber(db.companies[id].npwp, npwp)
  {
  }

  lemma HasHolderIff(db: Db, npwp: Option<string>)
    ensures HasHolder(db, npwp) <==> SomebodyHolds(db, npwp)
  {
    forall o ensures Holds(db, o, npwp) <==>
      o in db.companies && !db.companies[o].deleted && SameNumber(db.companies[o].npwp, npwp)
    {
      HoldsIff(db, o, npwp);
    }
  }

  // The claimed company ends with both companies' transporters, and the other with none.
  function TransportersAfterFold(db: Db, id: Id, other: Option<Id>, shipper: Id): set<Id> {
    if other.None? then TransportersOf(db, shipper)
    else if shipper == id then TransportersOf(db, id) + TransportersOf(db, other.value)
    else if shipper == other.value then {}
    else TransportersOf(db, shipper)
  }

  lemma ClaimConservesTransporters(db: Db, id: Id, other: Option<Id>, npwp: string, user: Id, granted: set<string>,
          shipper: Id)
    requires MayWrite(db, id, other, npwp)
    ensures TransportersOf(ClaimedDb(db, id, other, npwp, user, granted), shipper) ==
      TransportersAfterFold(db, id, other, shipper)
  {
    if other.Some? {
      CopyUnites(db, other.value, id, shipper);
      ClearRemoves(LinksCopied(db, other.value, id), other.value, shipper);
    }
    assert ClaimedDb(db, id, other, npwp, user, granted).links == FoldedIn(db, id, other).links;
  }

  lemma LinkingKeepsRows(db: Db, transporter: Id, shipper: Id, actor: Option<Id>, npwp: Option<string>)
    ensures IndexesHold(Linked(db, transporter, shipper, actor)) == IndexesHold(db)
    ensures Holds(Linked(db, transporter, shipper, actor), shipper, npwp) == Holds(db, shipper, npwp)
  {
  }

  ghost predicate HasHolder(db: Db, npwp: Option<string>) {
    exists o :: o in db.companies && Holds(db, o, npwp)
  }

  ghost predicate HasRegistrant(db: Db, nib: Option<string>) {
    exists o :: Live(db, o) && TaxKey(nib).Some? && TaxKey(db.companies[o].nib) == TaxKey(nib)
  }

  // With no live holder of its tax number, a new row is refused exactly for its registration.
  lemma InsertRefusedIff(db: Db, newId: Id, input: ShipperInput)
    requires IndexesHold(db) && newId !in db.companies && !HasHolder(db, input.npwp)
    ensures IndexesHold(Inserted(db, newId, input)) <==> !HasRegistrant(db, input.nib)
  {
    var c := Placeholder(input.npwp, input.nib);
    var after := Inserted(db, newId, input);
    forall o | o != newId ensures Live(after, o) <==> Live(db, o) {
    }
    forall o | Live(db, o) ensures !Holds(db, o, input.npwp) {
    }
    if o :| Live(db, o) && TaxKey(input.nib).Some? && TaxKey(db.companies[o].nib) == TaxKey(input.nib) {
      assert Clash(c, after.companies[o]) && Live(after, newId) && Live(after, o);
    } else {
      assert forall o :: Live(db, o) ==> !Clash(c, db.companies[o]) && !Clash(db.companies[o], c);
    }
  }

  // No other company's link has this token, which is drawn at random.
  ghost predicate TokenNew(db: Db, company: Id, hash: string) {
    forall o :: o in db.companies && o != company ==> db.companies[o].claimHash != Some(hash)
  }

  // ---- Who may claim ------------------------------------------------------------------------------

  predicate Entered(input: ClaimInput) {
    Digits(input.npwp) != "" && input.hasIdentifier && input.goodPassword
  }

  ghost predicate HasLink(db: Db, input: ClaimInput) {
    exists o :: LinkNames(db, o, input.tokenHash)
  }

  ghost predicate LinkExpired(db: Db, input: ClaimInput, now: int) {
    exists o :: LinkNames(db, o, input.tokenHash) && Expired(db, o, now)
  }

  ghost predicate LinkPeopled(db: Db, input: ClaimInput) {
    exists o :: LinkNames(db, o, input.tokenHash) && ActiveOf(db, o) != {}
  }

  predicate PeopledDuplicate(db: Db, input: ClaimInput, o: Id, d: Id) {
    && LinkNames(db, o, input.tokenHash)
    && d in db.companies && IsDuplicate(db, d, o, input.npwp) && ActiveOf(db, d) != {}
  }

  ghost predicate DuplicateHasPeople(db: Db, input: ClaimInput) {
    exists o, d :: PeopledDuplicate(db, input, o, d)
  }

  // The link names a live company nobody is in yet, in time.
  ghost predicate MayOpen(db: Db, input: ClaimInput, now: int) {
    Entered(input) && HasLink(db, input) && !LinkExpired(db, input, now) && !LinkPeopled(db, input)
  }

  // A link names one company, and a number one duplicate of it.
  lemma LinkNamesOne(db: Db, input: ClaimInput, a: Id, b: Id)
    requires IndexesHold(db) && LinkNames(db, a, input.tokenHash) && LinkNames(db, b, input.tokenHash)
    ensures a == b
  {
  }

  lemma DuplicateDecides(db: Db, input: ClaimInput, company: Id, duplicate: Option<Id>)
    requires IndexesHold(db) && LinkNames(db, company, input.tokenHash)
    requires duplicate.Some? ==>
      duplicate.value in db.companies && IsDuplicate(db, duplicate.value, company, input.npwp)
    requires duplicate.None? ==> forall o :: o in db.companies ==> !IsDuplicate(db, o, company, input.npwp)
    requires TaxKey(Some(input.npwp)).Some?
    ensures DuplicateHasPeople(db, input) <==> duplicate.Some? && ActiveOf(db, duplicate.value) != {}
  {
    if duplicate.Some? && ActiveOf(db, duplicate.value) != {} {
      assert PeopledDuplicate(db, input, company, duplicate.value);
    }
    if DuplicateHasPeople(db, input) {
      var o, d :| PeopledDuplicate(db, input, o, d);
      LinkNamesOne(db, input, o, company);
      HolderIsUnique(db, Some(input.npwp), d, duplicate.value);
    }
  }

  lemma LinkDecides(db: Db, input: ClaimInput, company: Id, now: int)
    requires IndexesHold(db) && LinkNames(db, company, input.tokenHash)
    ensures HasLink(db, input)
    ensures LinkExpired(db, input, now) <==> Expired(db, company, now)
    ensures LinkPeopled(db, input) <==> ActiveOf(db, company) != {}
  {
    forall o | LinkNames(db, o, input.tokenHash) ensures o == company {
      LinkNamesOne(db, input, o, company);
    }
  }

  // What the look-ups found, said of the rows.
  lemma {:induction false} ClaimFound(db: Db, id: Id, other: Option<Id>, npwp: string)
    requires MayClaim(db, id, other, npwp)
    ensures !HasPeople(db, id)
    ensures other.Some? ==>
      SameNumber(db.companies[other.value].npwp, Some(npwp)) && !HasPeople(db, other.value)
    ensures other.None? ==> forall o :: o in db.companies && o != id && !db.companies[o].deleted ==>
      !SameNumber(db.companies[o].npwp, Some(npwp))
  {
    PeopledIff(db, id);
    if other.Some? {
      PeopledIff(db, other.value);
    }
    if other.None? {
      forall o | o in db.companies && o != id && !db.companies[o].deleted
        ensures !SameNumber(db.companies[o].npwp, Some(npwp))
      {
        assert !IsDuplicate(db, o, id, npwp);
      }
    }
  }

  class Shippers {
    const database: Database

    constructor (database: Database)
      ensures this.database == database
    {
      this.database := database;
    }

    // Records a shipper, or links to the one its tax number already names. Whoever supplies the
    // number next reaches the same row.
    method CreateShipper(transporter: Id, actor: Option<Id>, input: ShipperInput, newId: Id)
      returns (r: Result<Created, ShipperError>)
      requires IndexesHold(database.db) && newId !in database.db.companies
      modifies database
      ensures r.Err? ==> database.db == old(database.db)
      ensures r.Ok? && r.value.existing ==>
        && Holds(old(database.db), r.value.company, input.npwp)
        && database.db == Linked(old(database.db), transporter, r.value.company, actor)
      ensures r.Ok? && !r.value.existing ==>
        && r.value.company == newId
        && (forall o :: o in old(database.db).companies ==> !Holds(old(database.db), o, input.npwp))
        && database.db == Linked(Inserted(old(database.db), newId, input), transporter, newId, actor)
      ensures r.Ok? && TaxKey(input.npwp).Some? ==> Holds(database.db, r.value.company, input.npwp)
      // A live company with the same digits is linked to; otherwise one row is added, and linked to.
      ensures r.Ok? ==> (r.value.existing <==> SomebodyHolds(old(database.db), input.npwp))
      ensures r.Ok? && r.value.existing ==>
        && r.value.company in old(database.db).companies && !old(database.db).companies[r.value.company].deleted
        && SameNumber(old(database.db).companies[r.value.company].npwp, input.npwp)
        && LinkMade(old(database.db), database.db, transporter, r.value.company, actor)
      ensures r.Ok? && !r.value.existing ==>
        var row := Company(false, None, input.npwp, input.nib, None, None, None, None, None, 0);
        && r.value.company == newId
        && LinkMade(old(database.db).(companies := old(database.db).companies[newId := row]), database.db, transporter,
             newId, actor)
      ensures r == Err(Invalid) <==>
        || input.name == "" || input.entityType !in {"", "company", "personal"}
        || (input.entityType == "personal" && input.nib.Some? && input.nib.value != "")
      ensures r == Err(Invalid) <==> BadInput(input)
      // A number somebody live holds is linked to; a registration somebody live holds is refused.
      ensures r == Err(ShipperExists) <==>
        !BadInput(input) && !HasHolder(old(database.db), input.npwp) && HasRegistrant(old(database.db), input.nib)
      ensures r.Ok? <==>
        !BadInput(input) && (HasHolder(old(database.db), input.npwp) || !HasRegistrant(old(database.db), input.nib))
      ensures IndexesHold(database.db)
    {
      if BadInput(input) {
        return Err(Invalid);
      }
      var tx := database.db;
      HasHolderIff(tx, input.npwp);
      var holder := FindHolder(input.npwp);
      if holder.Some? {
        HoldsIff(tx, holder.value, input.npwp);
        LinkedMakes(tx, transporter, holder.value, actor);
        LinkingKeepsRows(tx, transporter, holder.value, actor, input.npwp);
        database.db := Linked(tx, transporter, holder.value, actor);
        return Ok(Created(holder.value, true));
      }
      InsertRefusedIff(tx, newId, input);
      tx := Inserted(tx, newId, input);
      if !IndexesHold(tx) {
        return Err(ShipperExists);
      }
      LinkingKeepsRows(tx, transporter, newId, actor, input.npwp);
      LinkedMakes(tx, transporter, newId, actor);
      database.db := Linked(tx, transporter, newId, actor);
      return Ok(Created(newId, false));
    }

    method FindHolder(npwp: Option<string>) returns (id: Option<Id>)
      ensures id.Some? ==> Holds(database.db, id.value, npwp)
      ensures id.None? ==> forall o :: o in database.db.companies ==> !Holds(database.db, o, npwp)
    {
      if TaxKey(npwp).Some? {
        if o :| o in database.db.companies && Holds(database.db, o, npwp) {
          return Some(o);
        }
      }
      return None;
    }

    // Issues a claim link, overwriting any earlier one.
    method IssueClaimLink(company: Id, hash: string, now: int) returns (r: Result<int, ShipperError>)
      modifies database
      ensures r.Err? ==> database.db == old(database.db)
      ensures r.Ok? ==>
        && Live(old(database.db), company) && ActiveOf(old(database.db), company) == {}
        && r.value == now + CLAIM_LIFE
        && database.db == Issued(old(database.db), company, hash, now)
        && LinkNames(database.db, company, hash)
      ensures r.Ok? ==>
        && company in old(database.db).companies && !old(database.db).companies[company].deleted
        && !HasPeople(old(database.db), company)
        && var row := old(database.db).companies[company];
           database.db == old(database.db).(companies := old(database.db).companies[company :=
             row.(claimHash := Some(hash), claimExpires := Some(now + 14 * 24 * 3600 * 1_000_000_000))])
      ensures r == Err(AlreadyClaimed) <==> HasPeople(old(database.db), company)
      ensures ActiveOf(old(database.db), company) != {} ==> r == Err(AlreadyClaimed)
      ensures ActiveOf(old(database.db), company) == {} && !Live(old(database.db), company) ==> r == Err(ClaimNotFound)
      ensures IndexesHold(old(database.db)) ==> IndexesHold(database.db)
      ensures IndexesHold(old(database.db)) && TokenNew(old(database.db), company, hash) ==>
        (r.Ok? <==> Live(old(database.db), company) && ActiveOf(old(database.db), company) == {})
    {
      PeopledIff(database.db, company);
      if |ActiveOf(database.db, company)| > 0 {
        return Err(AlreadyClaimed);
      }
      if !Live(database.db, company) {
        return Err(ClaimNotFound);
      }
      var tx := Issued(database.db, company, hash, now);
      if !ClaimsUnique(tx) {
        return Err(Rejected);
      }
      IssuedKeepsTaxUnique(database.db, company, hash, now);
      database.db := tx;
      return Ok(now + CLAIM_LIFE);
    }

    // Turns a placeholder into a working tenant; `accountFree` says no live account holds the
    // claimant's email, phone or username. The unique indexes refuse none of its statements.
    method Claim(input: ClaimInput, user: Id, accountFree: bool, granted: set<string>, now: int)
      returns (r: Result<Claimed, ShipperError>)
      requires IndexesHold(database.db) && user !in database.db.users
      modifies database
      ensures r.Err? ==> database.db == old(database.db)
      ensures r.Ok? ==>
        && LinkNames(old(database.db), r.value.company, input.tokenHash)
        && !Expired(old(database.db), r.value.company, now)
        && MayClaim(old(database.db), r.value.company, r.value.duplicateOf, input.npwp)
        && r.value.user == user
        && database.db == ClaimedDb(old(database.db), r.value.company, r.value.duplicateOf, input.npwp, user, granted)
      ensures r.Ok? ==>
        var before, id := old(database.db).companies, r.value.company;
        && id in before && !before[id].deleted && before[id].claimHash == Some(input.tokenHash)
        && before[id].claimExpires.Some? && now <= before[id].claimExpires.value
        && !HasPeople(old(database.db), id)
        && (r.value.duplicateOf.Some? ==>
              && r.value.duplicateOf.value in before && r.value.duplicateOf.value != id
              && !before[r.value.duplicateOf.value].deleted
              && SameNumber(before[r.value.duplicateOf.value].npwp, Some(input.npwp))
              && !HasPeople(old(database.db), r.value.duplicateOf.value))
        && (r.value.duplicateOf.None? ==> forall o :: o in before && o != id && !before[o].deleted ==>
              !SameNumber(before[o].npwp, Some(input.npwp)))
      ensures r.Ok? ==>
        && r.value.company in old(database.db).companies
        && (r.value.duplicateOf.Some? ==> r.value.duplicateOf.value in old(database.db).companies)
        && ClaimLeaves(old(database.db), database.db, r.value.company, r.value.duplicateOf, input.npwp, user, granted)
      ensures IndexesHold(database.db)
      // One reason each, in the order they are looked at.
      ensures r == Err(NpwpRequired) <==> Digits(input.npwp) == ""
      ensures r == Err(Invalid) <==>
        || (Digits(input.npwp) != "" && !(input.hasIdentifier && input.goodPassword))
        || (MayOpen(old(database.db), input, now) && !DuplicateHasPeople(old(database.db), input) && !accountFree)
      ensures r == Err(ClaimNotFound) <==> Entered(input) && !HasLink(old(database.db), input)
      ensures r == Err(ClaimExpired) <==> Entered(input) && LinkExpired(old(database.db), input, now)
      ensures r == Err(AlreadyClaimed) <==>
        Entered(input) && !LinkExpired(old(database.db), input, now) && LinkPeopled(old(database.db), input)
      ensures r == Err(OtherHasPeople) <==>
        MayOpen(old(database.db), input, now) && DuplicateHasPeople(old(database.db), input)
      ensures r.Ok? <==>
        MayOpen(old(database.db), input, now) && !DuplicateHasPeople(old(database.db), input) && accountFree
    {
      if Digits(input.npwp) == "" {
        return Err(NpwpRequired);
      }
      if !input.hasIdentifier || !input.goodPassword {
        return Err(Invalid);
      }
      var tx := database.db;
      var company: Id;
      if o :| o in tx.companies && LinkNames(tx, o, input.tokenHash) {
        company := o;
      } else {
        return Err(ClaimNotFound);
      }
      LinkDecides(tx, input, company, now);
      if Expired(tx, company, now) {
        return Err(ClaimExpired);
      }
      if |ActiveOf(tx, company)| > 0 {
        return Err(AlreadyClaimed);
      }
      var duplicate := FindDuplicate(company, input.npwp);
      DuplicateDecides(tx, input, company, duplicate);
      if duplicate.Some? {
        if |ActiveOf(tx, duplicate.value)| > 0 {
          return Err(OtherHasPeople);
        }
        tx := LinksCopied(tx, duplicate.value, company);
        tx := LinksCleared(tx, duplicate.value);
        tx := FoldedAway(tx, duplicate.value, company);
      }
      tx := Numbered(tx, company, input.npwp);
      tx := Administered(tx, company);
      if !accountFree {
        return Err(Invalid);
      }
      tx := Peopled(tx, company, user);
      tx := Entitled(tx, company, granted);
      tx := Moded(tx, company);
      NumberFreeAtLookUp(database.db, company, duplicate, input.npwp);
      ClaimedLeaves(database.db, company, duplicate, input.npwp, user, granted);
      ClaimFound(database.db, company, duplicate, input.npwp);
      ClaimKeepsIndexesIff(database.db, company, duplicate, input.npwp, user, granted, 4);
      database.db := tx;
      return Ok(Claimed(company, user, duplicate));
    }

    method FindDuplicate(company: Id, npwp: string) returns (duplicate: Option<Id>)
      ensures duplicate.Some? ==>
        duplicate.value in database.db.companies && IsDuplicate(database.db, duplicate.value, company, npwp)
      ensures duplicate.None? ==> forall o :: o in database.db.companies ==> !IsDuplicate(database.db, o, company, npwp)
    {
      if o :| o in database.db.companies && IsDuplicate(database.db, o, company, npwp) {
        return Some(o);
      }
      return None;
    }
  }

  predicate Expired(db: Db, id: Id, now: int)
    requires id in db.companies
  {
    db.companies[id].claimExpires.None? || db.companies[id].claimExpires.value < now
  }

  function Inserted(db: Db, id: Id, input: ShipperInput): Db {
    db.(companies := db.companies[id := Placeholder(input.npwp, input.nib)])
  }

  function Issued(db: Db, id: Id, hash: string, now: int): Db
    requires id in db.companies
  {
    var c := db.companies[id].(claimHash := Some(hash), claimExpires := Some(now + CLAIM_LIFE));
    db.(companies := db.companies[id := c])
  }

  lemma IssuedKeepsTaxUnique(db: Db, id: Id, hash: string, now: int)
    requires id in db.companies
    ensures TaxUnique(db) ==> TaxUnique(Issued(db, id, hash, now))
  {
  }
}
