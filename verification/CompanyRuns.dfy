// Every run of merging, claiming, issuing links, recording shippers and importing again, with
// arbitrary changes to people and to the other company columns in between.
//
// A merge locks both of its rows before it reads them, so it is one step. A claim is not: it locks
// the row its link names, which also keeps people and links out of that company; looks the duplicate
// up without a lock; counts the duplicate's people; copies its links; clears them; writes, which locks
// the duplicate and enters the number in the index; and commits. Each is a statement, or several that
// nothing can tell apart, and sees what others have committed before it. A step that needs a locked
// row, a link another transaction has deleted, or a number another has entered, waits: it is not
// enabled.
module CompanyRuns {
  import opened Prelude
  import opened Companies
  import opened MergeService
  import opened ShipperService

  datatype Phase = Held | Looked | Counted | Copied | Cleared | Written

  // `added` and `removed` are the links the claim has written and not committed.
  datatype ClaimTx = ClaimTx(
    id: Id,
    hash: string,
    npwp: string,
    other: Option<Id>,
    phase: Phase,
    added: map<(Id, Id), Option<Id>>,
    removed: set<(Id, Id)>)

  // `issued` and `claims` record every link issued and every claim that succeeded, in order.
  datatype State = State(db: Db, issued: seq<(Id, string)>, claims: seq<(string, Id)>, open: map<nat, ClaimTx>)

  datatype Step =
    | Merge(survivor: Id, duplicate: Id)
    | Hold(tx: nat, id: Id, hash: string, npwp: string, now: int)
    | LookUp(tx: nat, other: Option<Id>)
    | Count(tx: nat)
    | Copy(tx: nat)
    | Clear(tx: nat)
    | Write(tx: nat)
    | Commit(tx: nat, user: Id, granted: set<string>)
    | Abort(tx: nat)
    | Issue(id: Id, hash: string, now: int)
    | Insert(id: Id, company: Company)
    | Reimport(id: Id, company: Company)
    | Edit(id: Id, company: Company)
    | Link(transporter: Id, shipper: Id, actor: Option<Id>)
    | ChangePeople(users: map<Id, User>)

  predicate WasIssued(s: State, hash: string) {
    exists i :: 0 <= i < |s.issued| && s.issued[i].1 == hash
  }

  // ---- Locks ------------------------------------------------------------------------------------

  predicate Locks(t: ClaimTx, row: Id) {
    t.id == row || (t.phase.Written? && t.other == Some(row))
  }

  ghost predicate RowFree(s: State, row: Id) {
    forall n :: n in s.open ==> !Locks(s.open[n], row)
  }

  // A row that refers to a company waits for whoever holds it from the start.
  ghost predicate Referable(s: State, row: Id) {
    row in s.db.companies && forall n :: n in s.open ==> s.open[n].id != row
  }

  // No claim under way has deleted one of these links.
  ghost predicate LinksFree(s: State, keys: set<(Id, Id)>) {
    forall n :: n in s.open ==> s.open[n].removed !! keys
  }

  // The links a claim's copy or a merge inserts, or finds there.
  function CopyKeys(db: Db, from: Id, to: Id): set<(Id, Id)> {
    set t | t in TransportersOf(db, from) :: (t, to)
  }

  function MergeKeys(db: Db, survivor: Id, duplicate: Id): set<(Id, Id)> {
    CopyKeys(db, duplicate, survivor) + LinkKeys(db, duplicate)
  }

  // No live row holds a number that a claim has entered in the index and not committed yet.
  ghost predicate PendingFree(open: map<nat, ClaimTx>, db: Db) {
    forall n :: n in open && open[n].phase.Written? ==> NumberFree(db, open[n].id, open[n].other, open[n].npwp)
  }

  ghost predicate KeyFree(s: State, n: nat, npwp: string) {
    forall m :: m in s.open && m != n && s.open[m].phase.Written? ==> TaxKey(Some(s.open[m].npwp)) != TaxKey(Some(npwp))
  }

  // What the look-up answers: some live duplicate, or that there is none.
  ghost predicate Finds(db: Db, other: Option<Id>, id: Id, npwp: string) {
    && (other.Some? ==> IsDuplicate(db, other.value, id, npwp))
    && (other.None? ==> forall o :: o in db.companies ==> !IsDuplicate(db, o, id, npwp))
  }

  // The claim and merge columns are written by claims and merges alone.
  predicate KeepsIdentity(before: Company, after: Company) {
    after.mergedInto == before.mergedInto && after.claimHash == before.claimHash
  }

  function WithCompany(db: Db, id: Id, c: Company): Db {
    db.(companies := db.companies[id := c])
  }

  ghost predicate MayStore(s: State, id: Id, c: Company) {
    RowFree(s, id) && IndexesHold(WithCompany(s.db, id, c)) && PendingFree(s.open, WithCompany(s.db, id, c))
  }

  // An account put into a company refers to its row, so that waits while a claim holds the row;
  // and nothing brings a deleted account back.
  ghost predicate NobodyEntersHeld(s: State, users: map<Id, User>) {
    forall n :: n in s.open ==> ActiveOf(s.db.(users := users), s.open[n].id) <= ActiveOf(s.db, s.open[n].id)
  }

  ghost predicate Enabled(s: State, step: Step) {
    match step
    case Merge(survivor, duplicate) =>
      && RowFree(s, survivor) && RowFree(s, duplicate) && PendingFree(s.open, Merged(s.db, survivor, duplicate))
      && LinksFree(s, MergeKeys(s.db, survivor, duplicate))
    case Hold(n, id, hash, npwp, now) =>
      && n !in s.open && LinkNames(s.db, id, hash) && !Expired(s.db, id, now) && TaxKey(Some(npwp)).Some?
      && RowFree(s, id)
    case LookUp(n, other) =>
      && n in s.open && s.open[n].phase.Held? && ActiveOf(s.db, s.open[n].id) == {}
      && Finds(s.db, other, s.open[n].id, s.open[n].npwp)
    case Count(n) =>
      && n in s.open && s.open[n].phase.Looked? && s.open[n].other.Some?
      && ActiveOf(s.db, s.open[n].other.value) == {}
    case Copy(n) =>
      && n in s.open && s.open[n].phase.Counted? && s.open[n].other.Some?
      && LinksFree(s, CopyKeys(s.db, s.open[n].other.value, s.open[n].id))
    case Clear(n) =>
      && n in s.open && s.open[n].phase.Copied? && s.open[n].other.Some?
      && LinksFree(s, LinkKeys(s.db, s.open[n].other.value))
    case Write(n) =>
      && n in s.open
      && (if s.open[n].other.Some? then s.open[n].phase.Cleared? && RowFree(s, s.open[n].other.value)
          else s.open[n].phase.Looked?)
      && NumberFree(s.db, s.open[n].id, s.open[n].other, s.open[n].npwp) && KeyFree(s, n, s.open[n].npwp)
    case Commit(n, user, _) =>
      n in s.open && s.open[n].phase.Written? && user !in s.db.users && Writable(s.db, s.open[n])
    case Abort(n) => n in s.open
    // Tokens are drawn at random and never repeat. The count of people was read before the row
    // was reached and may be stale, so it is not asked for.
    case Issue(id, hash, _) => Live(s.db, id) && !WasIssued(s, hash) && RowFree(s, id)
    case Insert(id, c) => id !in s.db.companies && c.mergedInto.None? && c.claimHash.None? && MayStore(s, id, c)
    // The import writes over the row a legacy account was turned into, deletion included.
    case Reimport(id, c) => id in s.db.companies && KeepsIdentity(s.db.companies[id], c) && MayStore(s, id, c)
    case Edit(id, c) =>
      && id in s.db.companies && KeepsIdentity(s.db.companies[id], c) && (s.db.companies[id].deleted ==> c.deleted)
      && MayStore(s, id, c)
    case Link(transporter, shipper, _) =>
      Referable(s, transporter) && Referable(s, shipper) && LinksFree(s, {(transporter, shipper)})
    case ChangePeople(users) => NobodyEntersHeld(s, users)
  }

  predicate Writable(db: Db, t: ClaimTx) {
    t.id in db.companies && (t.other.Some? ==> t.other.value in db.companies)
  }

  // What a claim commits: its own rows and the duplicate's as they stand now, and the links it wrote
  // when it wrote them.
  function CommittedDb(db: Db, t: ClaimTx, user: Id, granted: set<string>): Db
    requires Writable(db, t)
  {
    ClaimedDb(db, t.id, t.other, t.npwp, user, granted).(links := db.links - t.removed + t.added)
  }

  ghost function Do(s: State, step: Step): State
    requires Enabled(s, step)
  {
    match step
    case Merge(survivor, duplicate) => s.(db := Merged(s.db, survivor, duplicate))
    case Hold(n, id, hash, npwp, _) => s.(open := s.open[n := ClaimTx(id, hash, npwp, None, Held, map[], {})])
    case LookUp(n, other) => s.(open := s.open[n := s.open[n].(other := other, phase := Looked)])
    case Count(n) => s.(open := s.open[n := s.open[n].(phase := Counted)])
    case Copy(n) =>
      s.(open := s.open[n :=
        s.open[n].(phase := Copied, added := LinksAdded(s.db, s.open[n].other.value, s.open[n].id))])
    case Clear(n) =>
      s.(open := s.open[n := s.open[n].(phase := Cleared, removed := LinkKeys(s.db, s.open[n].other.value))])
    case Write(n) => s.(open := s.open[n := s.open[n].(phase := Written)])
    case Commit(n, user, granted) =>
      var t := s.open[n];
      s.(db := CommittedDb(s.db, t, user, granted), claims := s.claims + [(t.hash, t.id)], open := s.open - {n})
    case Abort(n) => s.(open := s.open - {n})
    case Issue(id, hash, now) => s.(db := Issued(s.db, id, hash, now), issued := s.issued + [(id, hash)])
    case Insert(id, c) => s.(db := WithCompany(s.db, id, c))
    case Reimport(id, c) => s.(db := WithCompany(s.db, id, c))
    case Edit(id, c) => s.(db := WithCompany(s.db, id, c))
    case Link(transporter, shipper, actor) => s.(db := Linked(s.db, transporter, shipper, actor))
    case ChangePeople(users) => s.(db := s.db.(users := users))
  }

  ghost predicate Runs(s: State, steps: seq<Step>)
    decreases |steps|
  {
    steps == [] || (Enabled(s, steps[0]) && Runs(Do(s, steps[0]), steps[1..]))
  }

  ghost function After(s: State, steps: seq<Step>): State
    requires Runs(s, steps)
    decreases |steps|
  {
    if steps == [] then s else After(Do(s, steps[0]), steps[1..])
  }

  // ---- How a step changes the company rows --------------------------------------------------

  // The one company a step folds away, and into which.
  ghost function Folds(s: State, step: Step): Option<(Id, Id)>
    requires Enabled(s, step)
  {
    match step
    case Merge(survivor, duplicate) =>
      if Refusal(s.db, survivor, duplicate).None? && IndexesHold(MergeService.Trace(s.db, survivor, duplicate)[4])
      then Some((duplicate, survivor)) else None
    case Commit(n, _, _) => if s.open[n].other.Some? then Some((s.open[n].other.value, s.open[n].id)) else None
    case _ => None
  }

  ghost predicate FoldsAway(s: State, step: Step, id: Id)
    requires Enabled(s, step)
  {
    Folds(s, step).Some? && Folds(s, step).value.0 == id
  }

  predicate IsMerged(db: Db, id: Id) {
    id in db.companies && db.companies[id].mergedInto.Some?
  }

  // The import makes a merged company live again.
  predicate Revives(s: State, step: Step) {
    step.Reimport? && IsMerged(s.db, step.id) && !step.company.deleted
  }

  // ---- The invariant ------------------------------------------------------------------------------

  ghost predicate OpenHolds(s: State) {
    forall n :: n in s.open ==>
      var t := s.open[n];
      LinkNames(s.db, t.id, t.hash) && MayWrite(s.db, t.id, t.other, t.npwp)
  }

  ghost predicate LocksApart(s: State) {
    forall m, n, row :: m in s.open && n in s.open && Locks(s.open[m], row) && Locks(s.open[n], row) ==> m == n
  }

  ghost predicate KeysApart(s: State) {
    forall n :: n in s.open && s.open[n].phase.Written? ==> KeyFree(s, n, s.open[n].npwp)
  }

  // From its look-up on, nobody is in the company a claim holds.
  ghost predicate NobodyIn(s: State) {
    forall n :: n in s.open && !s.open[n].phase.Held? ==> ActiveOf(s.db, s.open[n].id) == {}
  }

  // A claim's links are those its phase says, and nobody else writes or deletes them.
  predicate LinksOfPhase(t: ClaimTx) {
    && (t.other.None? || t.phase.Held? || t.phase.Looked? || t.phase.Counted? ==> t.added == map[])
    && (t.other.None? || !(t.phase.Cleared? || t.phase.Written?) ==> t.removed == {})
    && (t.phase.Held? ==> t.other.None?)
  }

  ghost predicate OwnLinks(db: Db, t: ClaimTx) {
    && LinksOfPhase(t)
    && (forall k :: k in t.added ==> k.1 == t.id && k !in db.links)
    && (forall k :: k in t.removed ==> Some(k.1) == t.other && k in db.links)
  }

  ghost predicate PendingLinks(s: State) {
    && (forall n :: n in s.open ==> OwnLinks(s.db, s.open[n]))
    && (forall m, n :: m in s.open && n in s.open && m != n ==> s.open[m].removed !! s.open[n].removed)
  }

  ghost predicate PointersLand(db: Db) {
    forall id ::
      IsMerged(db, id) ==> db.companies[id].mergedInto.value in db.companies && db.companies[id].mergedInto.value != id
  }

  ghost predicate LastIssued(s: State, id: Id, hash: string) {
    exists i ::
      && 0 <= i < |s.issued| && s.issued[i] == (id, hash)
      && forall j :: i < j < |s.issued| ==> s.issued[j].0 != id
  }

  ghost predicate Spent(s: State, hash: string) {
    exists i :: 0 <= i < |s.claims| && s.claims[i].0 == hash
  }

  // A link that works is the last one issued for its company and was never used.
  ghost predicate LinksAreIssued(s: State) {
    forall id :: id in s.db.companies && s.db.companies[id].claimHash.Some? ==>
      LastIssued(s, id, s.db.companies[id].claimHash.value) && !Spent(s, s.db.companies[id].claimHash.value)
  }

  ghost predicate ClaimsDistinct(s: State) {
    && (forall i, j :: 0 <= i < j < |s.claims| ==> s.claims[i].0 != s.claims[j].0)
    && (forall i :: 0 <= i < |s.claims| ==> WasIssued(s, s.claims[i].0))
  }

  ghost predicate OpenInv(s: State) {
    OpenHolds(s) && LocksApart(s) && KeysApart(s) && PendingFree(s.open, s.db)
  }

  ghost predicate Inv(s: State) {
    && IndexesHold(s.db) && PointersLand(s.db) && OpenInv(s) && NobodyIn(s) && PendingLinks(s)
    && LinksAreIssued(s) && ClaimsDistinct(s)
  }

  // ---- Rows a step touches ------------------------------------------------------------------------

  // A merge changes two rows, and of a third nothing at all; the survivor keeps everything that
  // tells it apart.
  lemma {:induction false} MergeChangesRow(db: Db, survivor: Id, duplicate: Id, id: Id)
    requires Refusal(db, survivor, duplicate).None? && id in db.companies
    ensures
      var before, after := db.companies[id], MergeService.Trace(db, survivor, duplicate)[4].companies;
      && after.Keys == db.companies.Keys && after[id].claimHash == before.claimHash
      && (id != survivor && id != duplicate ==> after[id] == before)
      && (id != duplicate ==> after[id].deleted == before.deleted && after[id].mergedInto == before.mergedInto)
      && (id == duplicate ==> after[id].deleted && after[id].mergedInto == Some(survivor))
  {
  }

  // A claim changes its own row and the duplicate's.
  lemma {:induction false} ClaimChangesRow(db: Db, id: Id, other: Option<Id>, npwp: string, user: Id,
          granted: set<string>, c: Id)
    requires MayWrite(db, id, other, npwp) && c in db.companies
    ensures
      var before, after := db.companies[c], ClaimedDb(db, id, other, npwp, user, granted).companies;
      && after.Keys == db.companies.Keys
      && (c != id && other != Some(c) ==> after[c] == before)
      && (c == id ==> after[c] == before.(npwp := Some(npwp), claimHash := None, claimExpires := None))
      && (other == Some(c) ==> after[c] == before.(npwp := None, nib := None, mergedInto := Some(id), deleted := true))
  {
  }

  // The row after a step: its pointer moves only by folding it away, and a deleted row comes back
  // only by import.
  lemma {:induction false} StepChangesRow(s: State, step: Step, id: Id)
    requires OpenHolds(s) && Enabled(s, step) && id in s.db.companies
    ensures
      var before, after := s.db.companies[id], Do(s, step).db.companies;
      && id in after
      && after[id].mergedInto == (if FoldsAway(s, step, id) then Some(Folds(s, step).value.1) else before.mergedInto)
      && (FoldsAway(s, step, id) ==> after[id].deleted)
      && (before.deleted && !step.Reimport? ==> after[id].deleted)
  {
    if step.Merge? {
      if Refusal(s.db, step.survivor, step.duplicate).None? {
        MergeChangesRow(s.db, step.survivor, step.duplicate, id);
      }
    } else if step.Commit? {
      var t := s.open[step.tx];
      ClaimChangesRow(s.db, t.id, t.other, t.npwp, step.user, step.granted, id);
    }
  }

  lemma {:induction false} FoldsAreRows(s: State, step: Step)
    requires OpenHolds(s) && Enabled(s, step) && Folds(s, step).Some?
    ensures
      var (folded, into) := Folds(s, step).value;
      && folded in s.db.companies && into in s.db.companies && folded != into
      && (step.Merge? ==> !IsMerged(s.db, folded) && !IsMerged(s.db, into))
  {
  }

  // A new row is unmerged and has no link.
  lemma {:induction false} StepAddsRow(s: State, step: Step, id: Id)
    requires OpenHolds(s) && Enabled(s, step) && id !in s.db.companies && id in Do(s, step).db.companies
    ensures Do(s, step).db.companies[id].mergedInto.None? && Do(s, step).db.companies[id].claimHash.None?
  {
    if step.Merge? {
      if Refusal(s.db, step.survivor, step.duplicate).None? {
        MergeChangesRow(s.db, step.survivor, step.duplicate, step.survivor);
      }
    } else if step.Commit? {
      var t := s.open[step.tx];
      ClaimChangesRow(s.db, t.id, t.other, t.npwp, step.user, step.granted, t.id);
    }
  }

  // The steps that write one company row as given write it, and nothing else.
  lemma {:induction false} RowIsWritten(s: State, step: Step, id: Id, c: Company)
    requires Enabled(s, step) && step in {Insert(id, c), Reimport(id, c), Edit(id, c)}
    ensures
      var end := Do(s, step);
      && id in end.db.companies && end.db.companies[id] == c
      && (forall o :: o != id ==>
            && (o in end.db.companies <==> o in s.db.companies)
            && (o in s.db.companies ==> end.db.companies[o] == s.db.companies[o]))
      && end == s.(db := s.db.(companies := end.db.companies))
  {
  }

  // Nobody but its own transaction changes a locked row.
  lemma {:induction false} LockedRowKept(s: State, step: Step, n: nat, row: Id)
    requires OpenHolds(s) && LocksApart(s) && Enabled(s, step) && n in s.open && Locks(s.open[n], row)
    requires row in s.db.companies
    requires !(step.Commit? && step.tx == n)
    ensures row in Do(s, step).db.companies && Do(s, step).db.companies[row] == s.db.companies[row]
  {
    if step.Merge? {
      if Refusal(s.db, step.survivor, step.duplicate).None? {
        MergeChangesRow(s.db, step.survivor, step.duplicate, row);
      }
    } else if step.Commit? {
      var t := s.open[step.tx];
      assert Locks(t, t.id) && (t.other.Some? ==> Locks(t, t.other.value));
      ClaimChangesRow(s.db, t.id, t.other, t.npwp, step.user, step.granted, row);
    }
  }

  // ---- Each part of the invariant -----------------------------------------------------------------

  lemma {:induction false} StepKeepsOpenHolds(s: State, step: Step)
    requires OpenHolds(s) && LocksApart(s) && Enabled(s, step)
    ensures OpenHolds(Do(s, step))
  {
    var s' := Do(s, step);
    forall n | n in s'.open && n in s.open
      ensures LinkNames(s'.db, s'.open[n].id, s'.open[n].hash)
      ensures MayWrite(s'.db, s'.open[n].id, s'.open[n].other, s'.open[n].npwp)
    {
      LockedRowKept(s, step, n, s.open[n].id);
      if s'.open[n].other.Some? && s'.open[n].other.value in s.db.companies {
        StepChangesRow(s, step, s'.open[n].other.value);
      }
    }
  }

  lemma {:induction false} StepKeepsLocksApart(s: State, step: Step)
    requires OpenHolds(s) && LocksApart(s) && Enabled(s, step)
    ensures LocksApart(Do(s, step))
  {
  }

  lemma {:induction false} StepKeepsKeysApart(s: State, step: Step)
    requires KeysApart(s) && Enabled(s, step)
    ensures KeysApart(Do(s, step))
  {
  }

  // People enter a company by a merge into it, by claiming it, or by joining it.
  lemma {:induction false} MergeEmptiesOthers(db: Db, survivor: Id, duplicate: Id, id: Id)
    requires id != survivor && ActiveOf(db, id) == {}
    ensures ActiveOf(Merged(db, survivor, duplicate), id) == {}
  {
  }

  lemma {:induction false} ClaimPeoplesOne(db: Db, id: Id, other: Option<Id>, npwp: string, user: Id,
          granted: set<string>, c: Id)
    requires MayWrite(db, id, other, npwp) && c != id && ActiveOf(db, c) == {}
    ensures ActiveOf(ClaimedDb(db, id, other, npwp, user, granted), c) == {}
  {
  }

  lemma {:induction false} NobodyEnters(s: State, step: Step, n: nat)
    requires OpenHolds(s) && LocksApart(s) && Enabled(s, step) && n in s.open && ActiveOf(s.db, s.open[n].id) == {}
    requires !(step.Commit? && step.tx == n)
    ensures ActiveOf(Do(s, step).db, s.open[n].id) == {}
  {
    assert Locks(s.open[n], s.open[n].id);
    if step.Merge? {
      MergeEmptiesOthers(s.db, step.survivor, step.duplicate, s.open[n].id);
    } else if step.Commit? {
      var t := s.open[step.tx];
      assert Locks(t, t.id);
      ClaimPeoplesOne(s.db, t.id, t.other, t.npwp, step.user, step.granted, s.open[n].id);
    }
  }

  lemma {:induction false} StepKeepsNobodyIn(s: State, step: Step)
    requires OpenHolds(s) && LocksApart(s) && NobodyIn(s) && Enabled(s, step)
    ensures NobodyIn(Do(s, step))
  {
    var s' := Do(s, step);
    forall n | n in s'.open && !s'.open[n].phase.Held? ensures ActiveOf(s'.db, s'.open[n].id) == {} {
      NobodyEnters(s, step, n);
    }
  }

  lemma {:induction false} MergeKeepsOwnLinks(db: Db, survivor: Id, duplicate: Id, t: ClaimTx)
    requires OwnLinks(db, t) && t.id != survivor && t.removed !! MergeKeys(db, survivor, duplicate)
    ensures OwnLinks(Merged(db, survivor, duplicate), t)
  {
  }

  lemma {:induction false} CommitKeepsOwnLinks(db: Db, u: ClaimTx, user: Id, granted: set<string>, t: ClaimTx)
    requires Writable(db, u) && OwnLinks(db, u) && OwnLinks(db, t) && t.id != u.id && t.removed !! u.removed
    ensures OwnLinks(CommittedDb(db, u, user, granted), t)
  {
  }

  lemma {:induction false} StepKeepsPendingLinks(s: State, step: Step)
    requires LocksApart(s) && PendingLinks(s) && Enabled(s, step)
    ensures PendingLinks(Do(s, step))
  {
    var s' := Do(s, step);
    forall n | n in s'.open ensures OwnLinks(s'.db, s'.open[n]) {
      if n in s.open {
        assert Locks(s.open[n], s.open[n].id);
      }
      if step.Merge? {
        MergeKeepsOwnLinks(s.db, step.survivor, step.duplicate, s.open[n]);
      } else if step.Commit? {
        assert Locks(s.open[step.tx], s.open[step.tx].id);
        CommitKeepsOwnLinks(s.db, s.open[step.tx], step.user, step.granted, s.open[n]);
      }
    }
  }

  // A commit enters no number a third transaction waits to commit.
  lemma {:induction false} CommitKeepsPending(s: State, step: Step, n: nat)
    requires OpenInv(s) && step.Commit? && Enabled(s, step) && n in s.open && n != step.tx && s.open[n].phase.Written?
    ensures NumberFree(Do(s, step).db, s.open[n].id, s.open[n].other, s.open[n].npwp)
  {
    var t, u := s.open[step.tx], s.open[n];
    var after := Do(s, step).db;
    forall o | o in after.companies && Some(o) != u.other ensures !IsDuplicate(after, o, u.id, u.npwp) {
      ClaimChangesRow(s.db, t.id, t.other, t.npwp, step.user, step.granted, t.id);
      ClaimChangesRow(s.db, t.id, t.other, t.npwp, step.user, step.granted, o);
      assert !IsDuplicate(s.db, o, u.id, u.npwp);
    }
  }

  lemma {:induction false} SameNumbers(a: Db, b: Db, id: Id, other: Option<Id>, npwp: string)
    requires a.companies.Keys == b.companies.Keys
    requires forall o :: o in a.companies ==>
      a.companies[o].npwp == b.companies[o].npwp && a.companies[o].deleted == b.companies[o].deleted
    ensures NumberFree(a, id, other, npwp) <==> NumberFree(b, id, other, npwp)
  {
    assert forall o :: o in a.companies ==> (IsDuplicate(a, o, id, npwp) <==> IsDuplicate(b, o, id, npwp));
  }

  lemma {:induction false} StepKeepsPending(s: State, step: Step)
    requires OpenInv(s) && Enabled(s, step)
    ensures PendingFree(Do(s, step).open, Do(s, step).db)
  {
    var s' := Do(s, step);
    forall n | n in s'.open && s'.open[n].phase.Written?
      ensures NumberFree(s'.db, s'.open[n].id, s'.open[n].other, s'.open[n].npwp)
    {
      if step.Commit? {
        CommitKeepsPending(s, step, n);
      } else if step.Issue? || step.Link? || step.ChangePeople? {
        SameNumbers(s.db, s'.db, s.open[n].id, s.open[n].other, s.open[n].npwp);
      }
    }
  }

  lemma {:induction false} StepKeepsIndexes(s: State, step: Step)
    requires IndexesHold(s.db) && OpenInv(s) && LinksAreIssued(s) && Enabled(s, step)
    ensures IndexesHold(Do(s, step).db)
  {
    match step {
      case Commit(n, user, granted) =>
        var t := s.open[n];
        ClaimKeepsIndexesIff(s.db, t.id, t.other, t.npwp, user, granted, 4);
        SameCompanies(ClaimedDb(s.db, t.id, t.other, t.npwp, user, granted), CommittedDb(s.db, t, user, granted));
      case Issue(id, hash, now) =>
        IssuedKeepsTaxUnique(s.db, id, hash, now);
        forall a | a in s.db.companies ensures s.db.companies[a].claimHash != Some(hash) {
        }
      case Link(t, p, actor) => SameCompanies(s.db, Linked(s.db, t, p, actor));
      case ChangePeople(users) => SameCompanies(s.db, s.db.(users := users));
      case _ =>
    }
  }

  lemma {:induction false} StepKeepsPointersLand(s: State, step: Step)
    requires OpenHolds(s) && PointersLand(s.db) && Enabled(s, step)
    ensures PointersLand(Do(s, step).db)
  {
    var after := Do(s, step).db;
    forall id | IsMerged(after, id)
      ensures after.companies[id].mergedInto.value in after.companies && after.companies[id].mergedInto.value != id
    {
      if id in s.db.companies {
        if Folds(s, step).Some? {
          FoldsAreRows(s, step);
        }
        StepChangesRow(s, step, id);
        StepChangesRow(s, step, after.companies[id].mergedInto.value);
      } else {
        StepAddsRow(s, step, id);
      }
    }
  }

  lemma {:induction false} StepChangesLinks(s: State, step: Step, id: Id)
    requires OpenHolds(s) && Enabled(s, step) && id in Do(s, step).db.companies
    ensures
      var after := Do(s, step).db.companies[id].claimHash;
      || after.None?
      || (id in s.db.companies && s.db.companies[id].claimHash == after
            && (step.Commit? ==> s.open[step.tx].id != id) && (step.Issue? ==> step.id != id))
      || (step.Issue? && step.id == id && after == Some(step.hash))
  {
    if id !in s.db.companies {
      StepAddsRow(s, step, id);
    } else if step.Merge? {
      if Refusal(s.db, step.survivor, step.duplicate).None? {
        MergeChangesRow(s.db, step.survivor, step.duplicate, id);
      }
    } else if step.Commit? {
      var t := s.open[step.tx];
      ClaimChangesRow(s.db, t.id, t.other, t.npwp, step.user, step.granted, id);
    }
  }

  lemma {:induction false} LastIssuedGrows(s: State, s': State, id: Id, hash: string, other: Id, newer: string)
    requires LastIssued(s, id, hash)
    requires s'.issued == s.issued || (other != id && s'.issued == s.issued + [(other, newer)])
    ensures LastIssued(s', id, hash)
  {
    var i :| 0 <= i < |s.issued| && s.issued[i] == (id, hash) && forall j :: i < j < |s.issued| ==> s.issued[j].0 != id;
    assert s'.issued[i] == (id, hash);
  }

  lemma {:induction false} StaysUnspent(s: State, step: Step, hash: string)
    requires Enabled(s, step) && !Spent(s, hash) && (step.Commit? ==> s.open[step.tx].hash != hash)
    ensures !Spent(Do(s, step), hash)
  {
  }

  lemma {:induction false} StepKeepsLink(s: State, step: Step, id: Id)
    requires Inv(s) && Enabled(s, step) && id in Do(s, step).db.companies
    requires Do(s, step).db.companies[id].claimHash.Some?
    ensures LastIssued(Do(s, step), id, Do(s, step).db.companies[id].claimHash.value)
    ensures !Spent(Do(s, step), Do(s, step).db.companies[id].claimHash.value)
  {
    var s' := Do(s, step);
    var hash := s'.db.companies[id].claimHash.value;
    StepChangesLinks(s, step, id);
    if step.Issue? && step.id == id {
      assert s'.issued[|s.issued|] == (id, hash);
    } else {
      LastIssuedGrows(s, s', id, hash, if step.Issue? then step.id else id, if step.Issue? then step.hash else hash);
      assert step.Commit? ==> LinkNames(s.db, s.open[step.tx].id, s.open[step.tx].hash);
    }
    StaysUnspent(s, step, hash);
  }

  lemma {:induction false} StepKeepsLinks(s: State, step: Step)
    requires Inv(s) && Enabled(s, step)
    ensures LinksAreIssued(Do(s, step))
  {
    var s' := Do(s, step);
    forall id | id in s'.db.companies && s'.db.companies[id].claimHash.Some?
      ensures LastIssued(s', id, s'.db.companies[id].claimHash.value)
      ensures !Spent(s', s'.db.companies[id].claimHash.value)
    {
      StepKeepsLink(s, step, id);
    }
  }

  lemma {:induction false} StaysIssued(s: State, step: Step, hash: string)
    requires Enabled(s, step) && WasIssued(s, hash)
    ensures WasIssued(Do(s, step), hash)
  {
    var k :| 0 <= k < |s.issued| && s.issued[k].1 == hash;
    assert Do(s, step).issued[k].1 == hash;
  }

  lemma {:induction false} StepKeepsClaims(s: State, step: Step)
    requires OpenHolds(s) && LinksAreIssued(s) && ClaimsDistinct(s) && Enabled(s, step)
    ensures ClaimsDistinct(Do(s, step))
  {
    var s' := Do(s, step);
    if step.Commit? {
      var t := s.open[step.tx];
      assert LinkNames(s.db, t.id, t.hash) && LastIssued(s, t.id, t.hash) && !Spent(s, t.hash);
      assert WasIssued(s, t.hash);
    }
    forall i | 0 <= i < |s'.claims| ensures WasIssued(s', s'.claims[i].0) {
      StaysIssued(s, step, s'.claims[i].0);
    }
  }

  lemma {:induction false} StepKeepsInv(s: State, step: Step)
    requires Inv(s) && Enabled(s, step)
    ensures Inv(Do(s, step))
  {
    StepKeepsIndexes(s, step);
    StepKeepsPointersLand(s, step);
    StepKeepsOpenHolds(s, step);
    StepKeepsNobodyIn(s, step);
    StepKeepsPendingLinks(s, step);
    StepKeepsLocksApart(s, step);
    StepKeepsKeysApart(s, step);
    StepKeepsPending(s, step);
    StepKeepsLinks(s, step);
    StepKeepsClaims(s, step);
  }

  // Whatever interleaves: the unique indexes hold, a claim under way still holds the live row its
  // link names, and working links are unspent.
  lemma {:induction false} RunKeepsInv(s: State, steps: seq<Step>)
    requires Inv(s) && Runs(s, steps)
    ensures Inv(After(s, steps))
    decreases |steps|
  {
    if steps != [] {
      StepKeepsInv(s, steps[0]);
      RunKeepsInv(Do(s, steps[0]), steps[1..]);
    }
  }
}
