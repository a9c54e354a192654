// Companies, people, roles and links as the database holds them, with the partial unique
// indexes on tax numbers (migrations/000014_shipper_identity.up.sql).
module Companies {
  import opened Prelude

  type Id = string

  datatype Company = Company(
    deleted: bool,
    mergedInto: Option<Id>,
    npwp: Option<string>,
    nib: Option<string>,
    address: Option<string>,
    city: Option<string>,
    bank: Option<string>,
    claimHash: Option<string>,
    claimExpires: Option<int>,
    maxUsers: int)

  datatype User = User(company: Option<Id>, deleted: bool, role: Option<(Id, string)>)

  datatype Role = Role(grantsAll: bool, isSystem: bool, permissions: seq<string>)

  // Links are keyed (transporter, shipper), roles (company, name), modules (company, product, module).
  datatype Db = Db(
    companies: map<Id, Company>,
    users: map<Id, User>,
    links: map<(Id, Id), Option<Id>>,
    roles: map<(Id, string), Role>,
    modules: map<(Id, string, string), bool>,
    modes: map<(Id, string), string>)

  // ---- Tax numbers ------------------------------------------------------------------------

  function Digits(s: string): string {
    if s == "" then ""
    else if '0' <= s[0] <= '9' then [s[0]] + Digits(s[1..])
    else Digits(s[1..])
  }

  // What the unique index compares: digits only, and nothing when there are none.
  function TaxKey(number: Option<string>): Option<string> {
    if number.None? || Digits(number.value) == "" then None else Some(Digits(number.value))
  }

  // Formatting never hides a duplicate: a number and its digits have one key.
  lemma {:induction false} DigitsTwice(s: string)
    ensures Digits(Digits(s)) == Digits(s)
  {
    if s != "" {
      DigitsTwice(s[1..]);
      if '0' <= s[0] <= '9' {
        assert Digits(s)[1..] == Digits(s[1..]);
      }
    }
  }

  // Normalising keeps the digits, in their order, and nothing else.
  lemma {:induction false} DigitsOfParts(a: string, b: string, c: char)
    ensures Digits(a + b) == Digits(a) + Digits(b)
    ensures Digits([c]) == if '0' <= c <= '9' then [c] else ""
    ensures Digits("") == ""
  {
    assert [c][1..] == "";
    if a == "" {
      assert a + b == b;
    } else {
      DigitsOfParts(a[1..], b, c);
      assert (a + b)[1..] == a[1..] + b;
    }
  }

  // ---- The unique indexes -------------------------------------------------------------------

  predicate Live(db: Db, id: Id) {
    id in db.companies && !db.companies[id].deleted
  }

  // Two rows that may not both be live.
  predicate Clash(a: Company, b: Company) {
    || (TaxKey(a.npwp).Some? && TaxKey(a.npwp) == TaxKey(b.npwp))
    || (TaxKey(a.nib).Some? && TaxKey(a.nib) == TaxKey(b.nib))
  }

  predicate TaxUnique(db: Db) {
    forall a, b :: a in db.companies && b in db.companies && a != b && Live(db, a) && Live(db, b) ==>
      !Clash(db.companies[a], db.companies[b])
  }

  predicate ClaimsUnique(db: Db) {
    forall a, b :: a in db.companies && b in db.companies && a != b && db.companies[a].claimHash.Some? ==>
      db.companies[a].claimHash != db.companies[b].claimHash
  }

  predicate IndexesHold(db: Db) {
    TaxUnique(db) && ClaimsUnique(db)
  }

  // Some live company other than `a` and `b` already holds a number of `c`.
  ghost predicate HeldByThird(db: Db, a: Id, b: Id, c: Company) {
    exists other :: other != a && other != b && Live(db, other) && Clash(c, db.companies[other])
  }

  // ---- People and links -----------------------------------------------------------------------

  function PeopleOf(db: Db, company: Id): set<Id> {
    set u | u in db.users && db.users[u].company == Some(company)
  }

  function ActiveOf(db: Db, company: Id): set<Id> {
    set u | u in db.users && db.users[u].company == Some(company) && !db.users[u].deleted
  }

  ghost predicate HasPeople(db: Db, company: Id) {
    exists u :: u in db.users && db.users[u].company == Some(company) && !db.users[u].deleted
  }

  lemma PeopledIff(db: Db, company: Id)
    ensures ActiveOf(db, company) != {} <==> HasPeople(db, company)
  {
    if u :| u in db.users && db.users[u].company == Some(company) && !db.users[u].deleted {
      assert u in ActiveOf(db, company);
    }
    if ActiveOf(db, company) != {} {
      var u :| u in ActiveOf(db, company);
    }
  }

  function TransportersOf(db: Db, shipper: Id): set<Id> {
    set k | k in db.links && k.1 == shipper :: k.0
  }

  // ---- Statements ------------------------------------------------------------------------------
  // Each is one SQL statement as one change of the whole database value.

  function UsersMoved(db: Db, from: Id, to: Id): Db {
    db.(users := map u | u in db.users ::
      if db.users[u].company == Some(from) then db.users[u].(company := Some(to)) else db.users[u])
  }

  // The rows INSERT .. SELECT .. ON CONFLICT DO NOTHING adds: an existing link keeps who made it.
  function LinksAdded(db: Db, from: Id, to: Id): map<(Id, Id), Option<Id>> {
    map k | k in (set t | t in TransportersOf(db, from) && (t, to) !in db.links :: (t, to)) :: db.links[(k.0, from)]
  }

  function LinksCopied(db: Db, from: Id, to: Id): Db {
    db.(links := db.links + LinksAdded(db, from, to))
  }

  function LinkKeys(db: Db, shipper: Id): set<(Id, Id)> {
    set k | k in db.links && k.1 == shipper
  }

  function LinksCleared(db: Db, shipper: Id): Db {
    db.(links := db.links - LinkKeys(db, shipper))
  }

  function FoldedAway(db: Db, id: Id, into: Id): Db
    requires id in db.companies
  {
    db.(companies := db.companies[id :=
      db.companies[id].(npwp := None, nib := None, mergedInto := Some(into), deleted := true)])
  }

  function Coalesce(own: Option<string>, other: Option<string>): Option<string> {
    if own.Some? then own else other
  }

  function CarriedOver(db: Db, id: Id, from: Company): Db
    requires id in db.companies
  {
    var c := db.companies[id];
    db.(companies := db.companies[id := c.(
      npwp := Coalesce(c.npwp, from.npwp), nib := Coalesce(c.nib, from.nib),
      address := Coalesce(c.address, from.address), city := Coalesce(c.city, from.city),
      bank := Coalesce(c.bank, from.bank))])
  }

  function Linked(db: Db, transporter: Id, shipper: Id, actor: Option<Id>): Db {
    if (transporter, shipper) in db.links then db else db.(links := db.links[(transporter, shipper) := actor])
  }

  // ---- What the statements do to relationships ----------------------------------------------

  lemma CopyUnites(db: Db, from: Id, to: Id, shipper: Id)
    ensures TransportersOf(LinksCopied(db, from, to), shipper) ==
      if shipper == to then TransportersOf(db, to) + TransportersOf(db, from) else TransportersOf(db, shipper)
    ensures LinksCopied(db, from, to).links.Keys - db.links.Keys
         == set t | t in TransportersOf(db, from) - TransportersOf(db, to) :: (t, to)
    ensures forall k :: k in db.links ==>
      k in LinksCopied(db, from, to).links && LinksCopied(db, from, to).links[k] == db.links[k]
    ensures forall t :: (t, from) in db.links && (t, to) !in db.links ==>
      (t, to) in LinksCopied(db, from, to).links && LinksCopied(db, from, to).links[(t, to)] == db.links[(t, from)]
  {
    var db' := LinksCopied(db, from, to);
    forall t ensures t in TransportersOf(db', shipper) <==>
      (t in TransportersOf(db, shipper) || (shipper == to && t in TransportersOf(db, from)))
    {
      assert t in TransportersOf(db', shipper) <==> (t, shipper) in db'.links;
      assert t in TransportersOf(db, shipper) <==> (t, shipper) in db.links;
    }
    forall k ensures k in db'.links.Keys - db.links.Keys <==>
      k in (set t | t in TransportersOf(db, from) - TransportersOf(db, to) :: (t, to))
    {
      assert k.1 == to ==> (k.0 in TransportersOf(db, to) <==> k in db.links);
    }
  }

  // The link is there afterwards, a new one made by `actor`, and nothing else is different.
  ghost predicate LinkMade(db: Db, after: Db, transporter: Id, shipper: Id, actor: Option<Id>) {
    && after == db.(links := after.links)
    && (forall k :: k in after.links <==> k in db.links || k == (transporter, shipper))
    && (forall k :: k in after.links ==> after.links[k] == (if k in db.links then db.links[k] else actor))
  }

  lemma LinkedMakes(db: Db, transporter: Id, shipper: Id, actor: Option<Id>)
    ensures LinkMade(db, Linked(db, transporter, shipper, actor), transporter, shipper, actor)
  {
  }

  lemma ClearRemoves(db: Db, shipper: Id, other: Id)
    ensures TransportersOf(LinksCleared(db, shipper), other) ==
      if other == shipper then {} else TransportersOf(db, other)
  {
  }

  lemma PairsCount(ts: set<Id>, to: Id)
    ensures |set t | t in ts :: (t, to)| == |ts|
  {
    if ts != {} {
      var t :| t in ts;
      PairsCount(ts - {t}, to);
      assert (set u | u in ts :: (u, to)) == (set u | u in ts - {t} :: (u, to)) + {(t, to)};
    }
  }

  // ---- The index after each company statement -------------------------------------------------

  lemma FoldAwayKeepsIndexes(db: Db, id: Id, into: Id)
    requires IndexesHold(db) && id in db.companies
    ensures IndexesHold(FoldedAway(db, id, into))
  {
  }

  lemma SameCompanies(a: Db, b: Db)
    requires a.companies == b.companies
    ensures IndexesHold(a) == IndexesHold(b)
  {
  }

  // Writing one row breaks the tax index exactly when the row is live and another live row
  // holds one of its numbers.
  lemma WriteKeepsTaxUnique(db: Db, id: Id, c: Company)
    requires TaxUnique(db) && id in db.companies
    ensures TaxUnique(db.(companies := db.companies[id := c])) <==> c.deleted || !HeldByThird(db, id, id, c)
  {
    var db' := db.(companies := db.companies[id := c]);
    assert forall a :: a != id ==> Live(db', a) == Live(db, a);
    if !c.deleted && HeldByThird(db, id, id, c) {
      var other :| other != id && Live(db, other) && Clash(c, db.companies[other]);
      assert Live(db', id) && Live(db', other) && Clash(db'.companies[id], db'.companies[other]);
    } else {
      forall a, b | Live(db', a) && Live(db', b) && a != b ensures !Clash(db'.companies[a], db'.companies[b]) {
        assert a == id ==> Live(db, b);
        assert b == id ==> Live(db, a);
      }
    }
  }

  class Database {
    var db: Db

    constructor (db: Db)
      ensures this.db == db
    {
      this.db := db;
    }
  }
}
