// Folding one company into another (internal/services/merge_service.go).
module MergeService {
  import opened Prelude
  import opened Companies

  datatype MergeError = IntoSelf | Missing | AlreadyMerged | BothHavePeople | IndexRejected

  datatype MergeResult = MergeResult(usersMoved: nat, linksMoved: nat)

  // Everything checked before the first write.
  function Refusal(db: Db, survivor: Id, duplicate: Id): Option<MergeError> {
    if survivor == duplicate then Some(IntoSelf)
    else if survivor !in db.companies || duplicate !in db.companies then Some(Missing)
    else if db.companies[duplicate].mergedInto.Some? || db.companies[survivor].mergedInto.Some? then Some(AlreadyMerged)
    else if ActiveOf(db, duplicate) != {} && ActiveOf(db, survivor) != {} then Some(BothHavePeople)
    else None
  }

  // The database after each of the transaction's five writes.
  function Trace(db: Db, survivor: Id, duplicate: Id): (t: seq<Db>)
    requires survivor in db.companies && duplicate in db.companies
    ensures |t| == 5
  {
    var moved := UsersMoved(db, duplicate, survivor);
    var copied := LinksCopied(moved, duplicate, survivor);
    var cleared := LinksCleared(copied, duplicate);
    var folded := FoldedAway(cleared, duplicate, survivor);
    var carried := CarriedOver(folded, survivor, db.companies[duplicate]);
    [moved, copied, cleared, folded, carried]
  }

  // The transaction as a whole: all five writes, or none.
  function Merged(db: Db, survivor: Id, duplicate: Id): Db {
    if Refusal(db, survivor, duplicate).None? && IndexesHold(Trace(db, survivor, duplicate)[4])
    then Trace(db, survivor, duplicate)[4]
    else db
  }

  // The numbers a survivor takes: those it has none of its own for.
  function Lent(survivor: Company, duplicate: Company): Company {
    duplicate.(
      npwp := if survivor.npwp.Some? then None else duplicate.npwp,
      nib := if survivor.nib.Some? then None else duplicate.nib)
  }

  // ---- The index at every statement -----------------------------------------------------------

  lemma StatementsBeforeLastKeepIndexes(db: Db, survivor: Id, duplicate: Id, i: nat)
    requires IndexesHold(db) && Refusal(db, survivor, duplicate).None? && i < 4
    ensures IndexesHold(Trace(db, survivor, duplicate)[i])
  {
    var t := Trace(db, survivor, duplicate);
    if i < 3 {
      SameCompanies(db, t[i]);
    } else {
      SameCompanies(db, t[2]);
      FoldAwayKeepsIndexes(t[2], duplicate, survivor);
    }
  }

  lemma CarriedClash(db: Db, survivor: Id, duplicate: Id, other: Id)
    requires IndexesHold(db) && Refusal(db, survivor, duplicate).None?
    requires Live(db, survivor) && Live(db, other) && other != survivor && other != duplicate
    ensures
      var carried := Trace(db, survivor, duplicate)[4].companies[survivor];
      Clash(carried, db.companies[other]) <==>
        Clash(Lent(db.companies[survivor], db.companies[duplicate]), db.companies[other])
  {
  }

  lemma LivesAfterFold(db: Db, survivor: Id, duplicate: Id, other: Id)
    requires Refusal(db, survivor, duplicate).None? && other != survivor
    ensures Live(Trace(db, survivor, duplicate)[3], other) <==> Live(db, other) && other != duplicate
    ensures Live(db, other) && other != duplicate ==>
      Trace(db, survivor, duplicate)[3].companies[other] == db.companies[other]
  {
  }

  lemma HeldAfterFold(db: Db, survivor: Id, duplicate: Id)
    requires IndexesHold(db) && Refusal(db, survivor, duplicate).None? && Live(db, survivor)
    ensures
      var t := Trace(db, survivor, duplicate);
      HeldByThird(t[3], survivor, survivor, t[4].companies[survivor]) <==>
        HeldByThird(db, survivor, duplicate, Lent(db.companies[survivor], db.companies[duplicate]))
  {
    var t := Trace(db, survivor, duplicate);
    var carried := t[4].companies[survivor];
    var lent := Lent(db.companies[survivor], db.companies[duplicate]);
    if o :| o != survivor && Live(t[3], o) && Clash(carried, t[3].companies[o]) {
      LivesAfterFold(db, survivor, duplicate, o);
      CarriedClash(db, survivor, duplicate, o);
    }
    if o :| o != survivor && o != duplicate && Live(db, o) && Clash(lent, db.companies[o]) {
      LivesAfterFold(db, survivor, duplicate, o);
      CarriedClash(db, survivor, duplicate, o);
    }
  }

  lemma ClaimsSurviveMerge(db: Db, survivor: Id, duplicate: Id)
    requires IndexesHold(db) && Refusal(db, survivor, duplicate).None?
    ensures ClaimsUnique(Trace(db, survivor, duplicate)[4])
  {
  }

  // The unique index rejects a merge exactly when the survivor is live, the duplicate was
  // already deleted, and some third live company holds a number the survivor would take over.
  lemma RejectedIff(db: Db, survivor: Id, duplicate: Id)
    requires IndexesHold(db) && Refusal(db, survivor, duplicate).None?
    ensures !IndexesHold(Trace(db, survivor, duplicate)[4]) <==>
      && Live(db, survivor) && !Live(db, duplicate)
      && HeldByThird(db, survivor, duplicate, Lent(db.companies[survivor], db.companies[duplicate]))
  {
    var t := Trace(db, survivor, duplicate);
    var lent := Lent(db.companies[survivor], db.companies[duplicate]);
    StatementsBeforeLastKeepIndexes(db, survivor, duplicate, 3);
    ClaimsSurviveMerge(db, survivor, duplicate);
    WriteKeepsTaxUnique(t[3], survivor, t[4].companies[survivor]);
    if Live(db, survivor) {
      HeldAfterFold(db, survivor, duplicate);
      if Live(db, duplicate) && HeldByThird(db, survivor, duplicate, lent) {
        var o :| o != survivor && o != duplicate && Live(db, o) && Clash(lent, db.companies[o]);
        assert Clash(db.companies[duplicate], db.companies[o]);
        assert false;
      }
    }
  }

  // A duplicate that is still live is never rejected: clearing its numbers before the survivor
  // takes them is an order that always works, at every statement.
  lemma LiveDuplicateNeverRejected(db: Db, survivor: Id, duplicate: Id, i: nat)
    requires IndexesHold(db) && Refusal(db, survivor, duplicate).None? && Live(db, duplicate) && i < 5
    ensures IndexesHold(Trace(db, survivor, duplicate)[i])
  {
    if i < 4 {
      StatementsBeforeLastKeepIndexes(db, survivor, duplicate, i);
    } else {
      RejectedIff(db, survivor, duplicate);
    }
  }

  // Taking the numbers first would not do: with both rows live they clash at once.
  lemma CopyingFirstIsRejected(db: Db, survivor: Id, duplicate: Id)
    requires Refusal(db, survivor, duplicate).None? && Live(db, survivor) && Live(db, duplicate)
    requires db.companies[survivor].npwp.None? && TaxKey(db.companies[duplicate].npwp).Some?
    ensures !IndexesHold(CarriedOver(db, survivor, db.companies[duplicate]))
  {
    var early := CarriedOver(db, survivor, db.companies[duplicate]);
    assert Live(early, survivor) && Live(early, duplicate);
    assert Clash(early.companies[survivor], early.companies[duplicate]);
  }

  lemma DeletedDuplicateCanBeRejected() returns (db: Db)
    ensures IndexesHold(db) && Refusal(db, "s", "d").None?
    ensures !IndexesHold(Trace(db, "s", "d")[4])
  {
    var bare := Company(false, None, None, None, None, None, None, None, None, 0);
    var numbered := bare.(npwp := Some("7"));
    var cs := map["s" := bare, "d" := numbered.(deleted := true), "x" := numbered];
    db := Db(cs, map[], map[], map[], map[], map[]);
    assert Digits("7") == "7" by {
      assert "7"[1..] == "";
    }
    assert TaxUnique(db) && ClaimsUnique(db);
    assert Live(db, "x") && Clash(Lent(db.companies["s"], db.companies["d"]), db.companies["x"]);
    RejectedIff(db, "s", "d");
  }

  // ---- Conservation -----------------------------------------------------------------------------

  lemma TransportersConserved(db: Db, survivor: Id, duplicate: Id, shipper: Id)
    requires Refusal(db, survivor, duplicate).None?
    ensures TransportersOf(Trace(db, survivor, duplicate)[4], shipper) ==
      if shipper == survivor then TransportersOf(db, survivor) + TransportersOf(db, duplicate)
      else if shipper == duplicate then {}
      else TransportersOf(db, shipper)
  {
    var t := Trace(db, survivor, duplicate);
    assert forall c :: TransportersOf(t[0], c) == TransportersOf(db, c);
    CopyUnites(t[0], duplicate, survivor, shipper);
    ClearRemoves(t[1], duplicate, shipper);
    assert t[4].links == t[2].links;
  }

  lemma LinksMovedIsTheDifference(db: Db, survivor: Id, duplicate: Id)
    requires Refusal(db, survivor, duplicate).None?
    ensures |LinksCopied(db, duplicate, survivor).links.Keys - db.links.Keys|
         == |TransportersOf(db, duplicate) - TransportersOf(db, survivor)|
  {
    CopyUnites(db, duplicate, survivor, survivor);
    PairsCount(TransportersOf(db, duplicate) - TransportersOf(db, survivor), survivor);
  }

  // Every person of the duplicate, and nobody else, changes company; nothing else about them does.
  lemma PeopleConserved(db: Db, survivor: Id, duplicate: Id, u: Id)
    requires Refusal(db, survivor, duplicate).None?
    ensures Trace(db, survivor, duplicate)[4].users.Keys == db.users.Keys
    ensures u in PeopleOf(db, duplicate) ==>
      Trace(db, survivor, duplicate)[4].users[u] == db.users[u].(company := Some(survivor))
    ensures u in db.users && u !in PeopleOf(db, duplicate) ==>
      Trace(db, survivor, duplicate)[4].users[u] == db.users[u]
    ensures PeopleOf(Trace(db, survivor, duplicate)[4], survivor) == PeopleOf(db, survivor) + PeopleOf(db, duplicate)
    ensures PeopleOf(Trace(db, survivor, duplicate)[4], duplicate) == {}
  {
  }

  // A detail either row knew is known afterwards; where both knew it the survivor's own stands,
  // and the folded row gives up its numbers.
  lemma DetailsConserved(db: Db, survivor: Id, duplicate: Id)
    requires Refusal(db, survivor, duplicate).None?
    ensures
      var own, dup := db.companies[survivor], db.companies[duplicate];
      var after := Trace(db, survivor, duplicate)[4].companies;
      && Settled(own.npwp, dup.npwp, after[survivor].npwp)
      && Settled(own.nib, dup.nib, after[survivor].nib)
      && Settled(own.address, dup.address, after[survivor].address)
      && Settled(own.city, dup.city, after[survivor].city)
      && Settled(own.bank, dup.bank, after[survivor].bank)
      && after[duplicate].npwp.None? && after[duplicate].nib.None?
      && forall c :: c in db.companies && c != survivor && c != duplicate ==>
           c in after && after[c] == db.companies[c]
  {
  }

  predicate Settled(own: Option<string>, other: Option<string>, after: Option<string>) {
    && (after.Some? <==> own.Some? || other.Some?)
    && (after.Some? ==> after == own || (own.None? && after == other))
  }

  // What an accepted merge leaves, field by field.
  ghost predicate FoldedInto(db: Db, after: Db, survivor: Id, duplicate: Id)
    requires survivor in db.companies && duplicate in db.companies
  {
    var own, dup := db.companies[survivor], db.companies[duplicate];
    && after.companies == db.companies
         [duplicate := dup.(npwp := None, nib := None, mergedInto := Some(survivor), deleted := true)]
         [survivor := own.(
            npwp := if own.npwp.Some? then own.npwp else dup.npwp, nib := if own.nib.Some? then own.nib else dup.nib,
            address := if own.address.Some? then own.address else dup.address,
            city := if own.city.Some? then own.city else dup.city,
            bank := if own.bank.Some? then own.bank else dup.bank)]
    && after.users.Keys == db.users.Keys
    && (forall u :: u in db.users ==>
          after.users[u] ==
            (if db.users[u].company == Some(duplicate) then db.users[u].(company := Some(survivor)) else db.users[u]))
    && (forall k :: k in after.links <==>
          k.1 != duplicate && (k in db.links || (k.1 == survivor && (k.0, duplicate) in db.links)))
    && (forall k :: k in after.links ==>
          after.links[k] == (if k in db.links then db.links[k] else db.links[(k.0, duplicate)]))
    && after.roles == db.roles && after.modules == db.modules && after.modes == db.modes
  }

  lemma {:induction false} MergeFoldsInto(db: Db, survivor: Id, duplicate: Id)
    requires Refusal(db, survivor, duplicate).None?
    ensures FoldedInto(db, Trace(db, survivor, duplicate)[4], survivor, duplicate)
  {
    var t := Trace(db, survivor, duplicate);
    assert t[4].users == t[0].users && t[4].links == t[2].links;
  }

  class Merger {
    const database: Database

    constructor (database: Database)
      ensures this.database == database
    {
      this.database := database;
    }

    // One transaction: on any error the database is as it was.
    method Merge(survivor: Id, duplicate: Id) returns (r: Result<MergeResult, MergeError>)
      modifies database
      ensures database.db == Merged(old(database.db), survivor, duplicate)
      ensures Refusal(old(database.db), survivor, duplicate).Some? ==>
        r == Err(Refusal(old(database.db), survivor, duplicate).value)
      ensures Refusal(old(database.db), survivor, duplicate).None? ==>
        r.Ok? == IndexesHold(Trace(old(database.db), survivor, duplicate)[4])
      ensures r.Err? ==> database.db == old(database.db)
      // One reason each, in the order they are looked at.
      ensures r == Err(IntoSelf) <==> survivor == duplicate
      ensures r == Err(Missing) <==>
        survivor != duplicate
          && (survivor !in old(database.db).companies || duplicate !in old(database.db).companies)
      ensures r == Err(AlreadyMerged) <==>
        && survivor != duplicate && survivor in old(database.db).companies && duplicate in old(database.db).companies
        && (old(database.db).companies[duplicate].mergedInto.Some?
              || old(database.db).companies[survivor].mergedInto.Some?)
      ensures r == Err(BothHavePeople) ==>
        HasPeople(old(database.db), duplicate) && HasPeople(old(database.db), survivor)
      ensures r.Ok? ==> !HasPeople(old(database.db), duplicate) || !HasPeople(old(database.db), survivor)
      ensures r.Ok? ==>
        && survivor in old(database.db).companies && duplicate in old(database.db).companies
        && FoldedInto(old(database.db), database.db, survivor, duplicate)
      ensures r.Ok? ==>
        && r.value.usersMoved == |PeopleOf(old(database.db), duplicate)|
        && r.value.linksMoved ==
             |TransportersOf(old(database.db), duplicate) - TransportersOf(old(database.db), survivor)|
    {
      if survivor == duplicate {
        return Err(IntoSelf);
      }
      var tx := database.db;
      if survivor !in tx.companies || duplicate !in tx.companies {
        return Err(Missing);
      }
      if tx.companies[duplicate].mergedInto.Some? {
        return Err(AlreadyMerged);
      }
      if tx.companies[survivor].mergedInto.Some? {
        return Err(AlreadyMerged);
      }
      PeopledIff(tx, duplicate);
      PeopledIff(tx, survivor);
      if |ActiveOf(tx, duplicate)| > 0 {
        if |ActiveOf(tx, survivor)| > 0 {
          return Err(BothHavePeople);
        }
      }
      var carried := tx.companies[duplicate];
      var usersMoved := |PeopleOf(tx, duplicate)|;
      tx := UsersMoved(tx, duplicate, survivor);
      var linksBefore := tx.links.Keys;
      tx := LinksCopied(tx, duplicate, survivor);
      var linksMoved := |tx.links.Keys - linksBefore|;
      tx := LinksCleared(tx, duplicate);
      tx := FoldedAway(tx, duplicate, survivor);
      tx := CarriedOver(tx, survivor, carried);
      LinksMovedIsTheDifference(database.db, survivor, duplicate);
      MergeFoldsInto(database.db, survivor, duplicate);
      if !IndexesHold(tx) {
        return Err(IndexRejected);
      }
      database.db := tx;
      return Ok(MergeResult(usersMoved, linksMoved));
    }

    // Follows a merge pointer one hop.
    method Resolve(id: Id) returns (r: Id)
      ensures r == Hop(database.db, id)
      ensures id in database.db.companies && database.db.companies[id].mergedInto.Some? ==>
        database.db.companies[id].mergedInto == Some(r)
      ensures id !in database.db.companies || database.db.companies[id].mergedInto.None? ==> r == id
    {
      if id !in database.db.companies {
        return id;
      }
      var target := database.db.companies[id].mergedInto;
      if target.None? {
        return id;
      }
      return target.value;
    }
  }

  function Hop(db: Db, id: Id): Id {
    if id in db.companies && db.companies[id].mergedInto.Some? then db.companies[id].mergedInto.value else id
  }
}
