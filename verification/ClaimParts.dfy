// What can fall between the parts of a claim: links to the duplicate, and people in it.
//
// A claim copies the duplicate's links and then deletes them, in two statements, and counts its
// people before either; nothing is locked there until the duplicate is written.
module ClaimParts {
  import opened Prelude
  import opened Companies
  import opened MergeService
  import opened ShipperService
  import opened CompanyRuns
  import opened ClaimRuns
  import opened MergePointers

  // ---- Runs step by step ------------------------------------------------------------------------

  ghost function At(s: State, steps: seq<Step>, k: nat): State
    requires Runs(s, steps) && k <= |steps|
    decreases k
  {
    if k == 0 then s else At(Do(s, steps[0]), steps[1..], k - 1)
  }

  lemma {:induction false} AtStep(s: State, steps: seq<Step>, k: nat)
    requires Runs(s, steps) && k < |steps|
    ensures Enabled(At(s, steps, k), steps[k]) && At(s, steps, k + 1) == Do(At(s, steps, k), steps[k])
    decreases k
  {
    if k > 0 {
      AtStep(Do(s, steps[0]), steps[1..], k - 1);
    }
  }

  lemma {:induction false} AtEnd(s: State, steps: seq<Step>)
    requires Runs(s, steps)
    ensures At(s, steps, |steps|) == After(s, steps)
    decreases |steps|
  {
    if steps != [] {
      AtEnd(Do(s, steps[0]), steps[1..]);
    }
  }

  lemma {:induction false} AtKeepsInv(s: State, steps: seq<Step>, k: nat)
    requires Inv(s) && Runs(s, steps) && k <= |steps|
    ensures Inv(At(s, steps, k))
    decreases k
  {
    if k > 0 {
      AtStep(s, steps, k - 1);
      AtKeepsInv(s, steps, k - 1);
      StepKeepsInv(At(s, steps, k - 1), steps[k - 1]);
    }
  }

  // ---- Every claim has its parts ------------------------------------------------------------------

  predicate Ends(step: Step, n: nat) {
    (step.Commit? || step.Abort?) && step.tx == n
  }

  predicate Lasts(steps: seq<Step>, i: nat, j: nat, n: nat) {
    forall k :: i <= k < j <= |steps| ==> !Ends(steps[k], n)
  }

  // The same claim, its links written once each.
  predicate Continues(t: ClaimTx, u: ClaimTx) {
    && u.id == t.id && PartsLeft(u) <= PartsLeft(t) && (!t.phase.Held? ==> u.other == t.other)
    && (PartsLeft(t) <= 3 ==> u.added == t.added) && (PartsLeft(t) <= 2 ==> u.removed == t.removed)
  }

  lemma {:induction false} StepContinues(s: State, step: Step, n: nat)
    requires n in s.open && Enabled(s, step) && !Ends(step, n)
    ensures n in Do(s, step).open && Continues(s.open[n], Do(s, step).open[n])
  {
  }

  lemma {:induction false} ContinuesAt(s: State, steps: seq<Step>, n: nat, k: nat)
    requires Runs(s, steps) && k < |steps| && n in At(s, steps, k).open && !Ends(steps[k], n)
    ensures n in At(s, steps, k + 1).open && Continues(At(s, steps, k).open[n], At(s, steps, k + 1).open[n])
  {
    AtStep(s, steps, k);
    StepContinues(At(s, steps, k), steps[k], n);
  }

  lemma {:induction false} RunContinues(s: State, steps: seq<Step>, n: nat, i: nat, j: nat)
    requires Runs(s, steps) && i <= j <= |steps| && Lasts(steps, i, j, n) && n in At(s, steps, i).open
    requires !At(s, steps, i).open[n].phase.Held?
    ensures n in At(s, steps, j).open && Continues(At(s, steps, i).open[n], At(s, steps, j).open[n])
    decreases j
  {
    if i < j {
      RunContinues(s, steps, n, i, j - 1);
      ContinuesAt(s, steps, n, j - 1);
    }
  }

  // The part after which a claim has `left` to go.
  function PartBefore(n: nat, left: nat): Step
    requires 2 <= left <= 4
  {
    if left == 4 then Count(n) else if left == 3 then Copy(n) else Clear(n)
  }

  lemma {:induction false} PartIsNext(s: State, step: Step, n: nat, left: nat)
    requires 2 <= left <= 4 && Enabled(s, step) && step != PartBefore(n, left)
    requires n in Do(s, step).open && Do(s, step).open[n].other.Some? && PartsLeft(Do(s, step).open[n]) <= left
    ensures n in s.open && s.open[n].other.Some? && PartsLeft(s.open[n]) <= left && !Ends(step, n)
  {
  }

  lemma {:induction false} PartWasTaken(s: State, steps: seq<Step>, n: nat, left: nat, j: nat) returns (k: nat)
    requires Runs(s, steps) && n !in s.open && j <= |steps| && 2 <= left <= 4
    requires n in At(s, steps, j).open && At(s, steps, j).open[n].other.Some?
    requires PartsLeft(At(s, steps, j).open[n]) <= left
    ensures k < j && steps[k] == PartBefore(n, left) && Lasts(steps, k, j, n)
    decreases j
  {
    AtStep(s, steps, j - 1);
    if steps[j - 1] == PartBefore(n, left) {
      k := j - 1;
    } else {
      PartIsNext(At(s, steps, j - 1), steps[j - 1], n, left);
      k := PartWasTaken(s, steps, n, left, j - 1);
    }
  }

  // One claim's count, copy and clear in a run that ends where it may commit.
  ghost predicate Parts(s: State, steps: seq<Step>, n: nat, count: nat, copy: nat, clear: nat) {
    && Runs(s, steps) && count < copy < clear < |steps| && Lasts(steps, count, |steps|, n)
    && steps[count] == Count(n) && steps[copy] == Copy(n) && steps[clear] == Clear(n)
  }

  // Every claim that has written and has a duplicate took the three parts in this order.
  lemma {:induction false} EveryClaimHasParts(s: State, steps: seq<Step>, n: nat)
    returns (count: nat, copy: nat, clear: nat)
    requires Runs(s, steps) && n !in s.open
    requires n in After(s, steps).open && After(s, steps).open[n].phase.Written? && After(s, steps).open[n].other.Some?
    ensures Parts(s, steps, n, count, copy, clear)
  {
    AtEnd(s, steps);
    clear := PartWasTaken(s, steps, n, 2, |steps|);
    AtStep(s, steps, clear);
    copy := PartWasTaken(s, steps, n, 3, clear);
    AtStep(s, steps, copy);
    count := PartWasTaken(s, steps, n, 4, copy);
  }

  // ---- The links a claim moves --------------------------------------------------------------------

  lemma {:induction false} LinkedIff(db: Db, t: Id, shipper: Id)
    ensures t in TransportersOf(db, shipper) <==> (t, shipper) in db.links
  {
  }

  // What a step can do to make a link that was not there.
  ghost predicate MakesLink(s: State, step: Step, k: (Id, Id))
    requires Enabled(s, step)
  {
    || (step.Link? && (step.transporter, step.shipper) == k)
    || (step.Merge? && Folds(s, step).Some? && step.survivor == k.1 && (k.0, step.duplicate) in s.db.links)
    || (step.Commit? && k in s.open[step.tx].added)
  }

  lemma {:induction false} AddsLinkIff(s: State, step: Step, k: (Id, Id))
    requires Enabled(s, step) && k !in s.db.links
    ensures k in Do(s, step).db.links <==> MakesLink(s, step, k)
  {
    if step.Merge? && Folds(s, step).Some? {
      TransportersConserved(s.db, step.survivor, step.duplicate, k.1);
      LinkedIff(s.db, k.0, k.1);
      LinkedIff(s.db, k.0, step.duplicate);
      LinkedIff(Do(s, step).db, k.0, k.1);
    }
  }

  // While a company is held, nobody else makes or deletes a link to it.
  lemma {:induction false} HeldLinkKept(s: State, step: Step, n: nat, t: Id)
    requires Inv(s) && n in s.open && Enabled(s, step) && !(step.Commit? && step.tx == n)
    ensures (t, s.open[n].id) in Do(s, step).db.links <==> (t, s.open[n].id) in s.db.links
  {
    assert Locks(s.open[n], s.open[n].id);
    if step.Merge? && Folds(s, step).Some? {
      TransportersConserved(s.db, step.survivor, step.duplicate, s.open[n].id);
      LinkedIff(s.db, t, s.open[n].id);
      LinkedIff(Do(s, step).db, t, s.open[n].id);
    } else if step.Commit? {
      OthersCommit(s, step, n, t);
    }
  }

  lemma {:induction false} OthersCommit(s: State, step: Step, n: nat, t: Id)
    requires Inv(s) && n in s.open && step.Commit? && Enabled(s, step) && step.tx != n
    ensures (t, s.open[n].id) in Do(s, step).db.links <==> (t, s.open[n].id) in s.db.links
  {
    var u := s.open[step.tx];
    assert Locks(s.open[n], s.open[n].id) && Locks(u, u.id) && (u.other.Some? ==> Locks(u, u.other.value));
    assert OwnLinks(s.db, u);
  }

  lemma {:induction false} HeldLinkKeptAt(s: State, steps: seq<Step>, n: nat, k: nat, t: Id)
    requires Inv(s) && Runs(s, steps) && k < |steps| && n in At(s, steps, k).open && !Ends(steps[k], n)
    ensures
      var id := At(s, steps, k).open[n].id;
      (t, id) in At(s, steps, k + 1).db.links <==> (t, id) in At(s, steps, k).db.links
  {
    AtStep(s, steps, k);
    AtKeepsInv(s, steps, k);
    HeldLinkKept(At(s, steps, k), steps[k], n, t);
  }

  lemma {:induction false} HeldLinksKept(s: State, steps: seq<Step>, n: nat, i: nat, j: nat, t: Id)
    requires Inv(s) && Runs(s, steps) && i <= j <= |steps| && Lasts(steps, i, j, n)
    requires n in At(s, steps, i).open && !At(s, steps, i).open[n].phase.Held?
    ensures
      var id := At(s, steps, i).open[n].id;
      (t, id) in At(s, steps, j).db.links <==> (t, id) in At(s, steps, i).db.links
    decreases j
  {
    if i < j {
      HeldLinksKept(s, steps, n, i, j - 1, t);
      RunContinues(s, steps, n, i, j - 1);
      HeldLinkKeptAt(s, steps, n, j - 1, t);
    }
  }

  // The claim at its commit is the one that copied and cleared.
  lemma {:induction false} ClaimAtCommit(s: State, steps: seq<Step>, n: nat, count: nat, copy: nat, clear: nat)
    requires Parts(s, steps, n, count, copy, clear)
    ensures n in At(s, steps, count).open && n in At(s, steps, copy).open && n in After(s, steps).open
    ensures
      var t, u := At(s, steps, copy).open[n], After(s, steps).open[n];
      && t.other.Some? && u.id == t.id && u.other == t.other
      && At(s, steps, count).open[n].id == t.id && At(s, steps, count).open[n].other == t.other
      && u.added == LinksAdded(At(s, steps, copy).db, t.other.value, t.id)
      && u.removed == LinkKeys(At(s, steps, clear).db, t.other.value)
  {
    AtEnd(s, steps);
    AtStep(s, steps, count);
    AtStep(s, steps, copy);
    AtStep(s, steps, clear);
    RunContinues(s, steps, n, count, copy);
    RunContinues(s, steps, n, copy + 1, clear);
    RunContinues(s, steps, n, copy + 1, |steps|);
    RunContinues(s, steps, n, clear + 1, |steps|);
  }

  lemma {:induction false} CommitWrites(db: Db, t: ClaimTx, user: Id, granted: set<string>, k: (Id, Id))
    requires Writable(db, t) && OwnLinks(db, t)
    ensures
      var links := CommittedDb(db, t, user, granted).links;
      && (k in links <==> (k in db.links && k !in t.removed) || k in t.added)
      && (k in links && k in db.links ==> links[k] == db.links[k])
  {
  }

  // What one transporter's link to one company becomes, of the database at the copy, at the clear and
  // at the commit.
  predicate EndsLinked(copied: Db, cleared: Db, end: Db, id: Id, other: Id, t: Id, shipper: Id) {
    if shipper == id then (t, id) in copied.links || (t, other) in copied.links
    else if shipper == other then (t, shipper) in end.links && (t, shipper) !in cleared.links
    else (t, shipper) in end.links
  }

  function TransportersMoved(copied: Db, cleared: Db, end: Db, id: Id, other: Id, shipper: Id): set<Id> {
    if shipper == id then TransportersOf(copied, id) + TransportersOf(copied, other)
    else if shipper == other then TransportersOf(end, shipper) - TransportersOf(cleared, shipper)
    else TransportersOf(end, shipper)
  }

  lemma {:induction false} CommitMovesLink(copied: Db, cleared: Db, end: Db, u: ClaimTx, user: Id, granted: set<string>,
          t: Id, shipper: Id)
    requires Writable(end, u) && OwnLinks(end, u) && u.other.Some? && u.other.value != u.id
    requires u.added == LinksAdded(copied, u.other.value, u.id) && u.removed == LinkKeys(cleared, u.other.value)
    requires (t, u.id) in end.links <==> (t, u.id) in copied.links
    ensures (t, shipper) in CommittedDb(end, u, user, granted).links <==>
      EndsLinked(copied, cleared, end, u.id, u.other.value, t, shipper)
  {
    CommitWrites(end, u, user, granted, (t, shipper));
    LinkedIff(copied, t, u.other.value);
  }

  lemma {:induction false} SameTransporters(after: Db, copied: Db, cleared: Db, end: Db, id: Id, other: Id, shipper: Id)
    requires forall t :: (t, shipper) in after.links <==> EndsLinked(copied, cleared, end, id, other, t, shipper)
    ensures TransportersOf(after, shipper) == TransportersMoved(copied, cleared, end, id, other, shipper)
  {
    forall t ensures t in TransportersOf(after, shipper) <==>
      t in TransportersMoved(copied, cleared, end, id, other, shipper)
    {
      LinkedIff(after, t, shipper);
      LinkedIff(copied, t, id);
      LinkedIff(copied, t, other);
      LinkedIff(cleared, t, shipper);
      LinkedIff(end, t, shipper);
    }
  }

  lemma {:induction false} OwnRowsAtCommit(s: State, n: nat, user: Id, granted: set<string>)
    requires Inv(s) && Enabled(s, Commit(n, user, granted))
    ensures OwnLinks(s.db, s.open[n]) && Writable(s.db, s.open[n])
    ensures MayWrite(s.db, s.open[n].id, s.open[n].other, s.open[n].npwp)
  {
  }

  lemma {:induction false} ClaimMovesLink(s: State, steps: seq<Step>, n: nat, count: nat, copy: nat, clear: nat,
          user: Id, granted: set<string>, t: Id, shipper: Id)
    requires Inv(s) && Parts(s, steps, n, count, copy, clear) && Enabled(After(s, steps), Commit(n, user, granted))
    ensures After(s, steps).open[n].other.Some?
    ensures
      var end := After(s, steps);
      (t, shipper) in CommittedDb(end.db, end.open[n], user, granted).links <==>
        EndsLinked(At(s, steps, copy).db, At(s, steps, clear).db, end.db, end.open[n].id, end.open[n].other.value, t,
            shipper)
  {
    var end := After(s, steps);
    RunKeepsInv(s, steps);
    OwnRowsAtCommit(end, n, user, granted);
    ClaimAtCommit(s, steps, n, count, copy, clear);
    HeldFromCopy(s, steps, n, count, copy, clear, t);
    CommitMovesLink(At(s, steps, copy).db, At(s, steps, clear).db, end.db, end.open[n], user, granted, t, shipper);
  }

  lemma {:induction false} HeldFromCopy(s: State, steps: seq<Step>, n: nat, count: nat, copy: nat, clear: nat, t: Id)
    requires Inv(s) && Parts(s, steps, n, count, copy, clear)
    ensures n in After(s, steps).open
    ensures
      var id := After(s, steps).open[n].id;
      (t, id) in After(s, steps).db.links <==> (t, id) in At(s, steps, copy).db.links
  {
    ClaimAtCommit(s, steps, n, count, copy, clear);
    AtEnd(s, steps);
    AtStep(s, steps, copy);
    HeldLinksKept(s, steps, n, copy, |steps|, t);
  }

  // Whatever falls between: the claimed company ends with its own transporters and those the
  // duplicate had at the copy, the duplicate with those linked to it since the clear, and everybody
  // else with their own.
  lemma {:induction false} EveryClaimMovesLinks(s: State, steps: seq<Step>, n: nat, count: nat, copy: nat, clear: nat,
          user: Id, granted: set<string>, shipper: Id)
    requires Inv(s) && Parts(s, steps, n, count, copy, clear) && Enabled(After(s, steps), Commit(n, user, granted))
    ensures After(s, steps).open[n].other.Some?
    ensures
      var end := After(s, steps);
      TransportersOf(Do(end, Commit(n, user, granted)).db, shipper) ==
        TransportersMoved(At(s, steps, copy).db, At(s, steps, clear).db, end.db, end.open[n].id,
            end.open[n].other.value, shipper)
  {
    var end := After(s, steps);
    ClaimAtCommit(s, steps, n, count, copy, clear);
    var after := CommittedDb(end.db, end.open[n], user, granted);
    var id, other := end.open[n].id, end.open[n].other.value;
    forall t
      ensures (t, shipper) in after.links <==>
        EndsLinked(At(s, steps, copy).db, At(s, steps, clear).db, end.db, id, other, t, shipper)
    {
      ClaimMovesLink(s, steps, n, count, copy, clear, user, granted, t, shipper);
    }
    SameTransporters(after, At(s, steps, copy).db, At(s, steps, clear).db, end.db, id, other, shipper);
  }

  // A claim without a duplicate moves none.
  lemma {:induction false} NoDuplicateMovesNone(s: State, steps: seq<Step>, n: nat, user: Id, granted: set<string>)
    requires Inv(s) && Runs(s, steps) && Enabled(After(s, steps), Commit(n, user, granted))
    requires After(s, steps).open[n].other.None?
    ensures Do(After(s, steps), Commit(n, user, granted)).db.links == After(s, steps).db.links
  {
    RunKeepsInv(s, steps);
    OwnRowsAtCommit(After(s, steps), n, user, granted);
  }

  // And a link that stays keeps who made it.
  lemma {:induction false} EveryClaimKeepsAuthors(s: State, steps: seq<Step>, n: nat, user: Id, granted: set<string>,
          k: (Id, Id))
    requires Inv(s) && Runs(s, steps) && Enabled(After(s, steps), Commit(n, user, granted))
    requires k in After(s, steps).db.links && k in Do(After(s, steps), Commit(n, user, granted)).db.links
    ensures Do(After(s, steps), Commit(n, user, granted)).db.links[k] == After(s, steps).db.links[k]
  {
    var end := After(s, steps);
    RunKeepsInv(s, steps);
    OwnRowsAtCommit(end, n, user, granted);
    CommitWrites(end.db, end.open[n], user, granted, k);
  }

  // ---- Who is lost ----------------------------------------------------------------------------------

  // Linked when the claim commits, to either company, and afterwards to neither.
  predicate Lost(before: Db, after: Db, id: Id, other: Id, t: Id) {
    && (t in TransportersOf(before, id) || t in TransportersOf(before, other))
    && t !in TransportersOf(after, id) && t !in TransportersOf(after, other)
  }

  // Linked to the duplicate at the clear, and to neither company at the copy.
  predicate Missed(copied: Db, cleared: Db, id: Id, other: Id, t: Id) {
    && t in TransportersOf(cleared, other)
    && t !in TransportersOf(copied, id) && t !in TransportersOf(copied, other)
  }

  // Left with the duplicate alone, which the claim has deleted.
  predicate Stranded(after: Db, id: Id, other: Id, t: Id) {
    t in TransportersOf(after, other) && t !in TransportersOf(after, id)
  }

  // Linked to the duplicate at the commit, but not yet at the clear, and to neither company at the copy.
  predicate Late(copied: Db, cleared: Db, end: Db, id: Id, other: Id, t: Id) {
    && t in TransportersOf(end, other) && t !in TransportersOf(cleared, other)
    && t !in TransportersOf(copied, id) && t !in TransportersOf(copied, other)
  }

  // A transporter is lost exactly when it linked to the duplicate between the copy and the clear and
  // the claimed company lacked it, and stranded exactly when it linked between the clear and the commit.
  lemma {:induction false} LostIff(s: State, steps: seq<Step>, n: nat, count: nat, copy: nat, clear: nat, user: Id,
          granted: set<string>, t: Id)
    requires Inv(s) && Parts(s, steps, n, count, copy, clear) && Enabled(After(s, steps), Commit(n, user, granted))
    ensures After(s, steps).open[n].other.Some?
    ensures
      var end := After(s, steps);
      var id, other := end.open[n].id, end.open[n].other.value;
      Lost(end.db, Do(end, Commit(n, user, granted)).db, id, other, t) <==>
        Missed(At(s, steps, copy).db, At(s, steps, clear).db, id, other, t)
    ensures
      var end := After(s, steps);
      var id, other := end.open[n].id, end.open[n].other.value;
      Stranded(Do(end, Commit(n, user, granted)).db, id, other, t) <==>
        Late(At(s, steps, copy).db, At(s, steps, clear).db, end.db, id, other, t)
  {
    var end := After(s, steps);
    RunKeepsInv(s, steps);
    OwnRowsAtCommit(end, n, user, granted);
    ClaimAtCommit(s, steps, n, count, copy, clear);
    HeldFromCopy(s, steps, n, count, copy, clear, t);
    var id, other := end.open[n].id, end.open[n].other.value;
    EveryClaimMovesLinks(s, steps, n, count, copy, clear, user, granted, id);
    EveryClaimMovesLinks(s, steps, n, count, copy, clear, user, granted, other);
    LostOf(At(s, steps, copy).db, At(s, steps, clear).db, end.db, Do(end, Commit(n, user, granted)).db, end.open[n], t);
  }

  lemma {:induction false} LostOf(copied: Db, cleared: Db, end: Db, after: Db, u: ClaimTx, t: Id)
    requires OwnLinks(end, u) && u.other.Some? && u.other.value != u.id && u.removed == LinkKeys(cleared, u.other.value)
    requires (t, u.id) in end.links <==> (t, u.id) in copied.links
    requires TransportersOf(after, u.id) == TransportersMoved(copied, cleared, end, u.id, u.other.value, u.id)
    requires TransportersOf(after, u.other.value) ==
      TransportersMoved(copied, cleared, end, u.id, u.other.value, u.other.value)
    ensures Lost(end, after, u.id, u.other.value, t) <==> Missed(copied, cleared, u.id, u.other.value, t)
    ensures Stranded(after, u.id, u.other.value, t) <==> Late(copied, cleared, end, u.id, u.other.value, t)
  {
    LinkedIff(end, t, u.id);
    LinkedIff(end, t, u.other.value);
    LinkedIff(copied, t, u.id);
    LinkedIff(cleared, t, u.other.value);
  }

  // Behind every such link there is a step of the run between that made it.
  lemma {:induction false} LinkWasMade(s: State, steps: seq<Step>, i: nat, j: nat, k: (Id, Id)) returns (m: nat)
    requires Runs(s, steps) && i <= j <= |steps| && k !in At(s, steps, i).db.links && k in At(s, steps, j).db.links
    ensures i <= m < j && Enabled(At(s, steps, m), steps[m]) && MakesLink(At(s, steps, m), steps[m], k)
  {
    m := LinkAppeared(s, steps, i, j, k);
    MadeAt(s, steps, m, k);
  }

  lemma {:induction false} LinkAppeared(s: State, steps: seq<Step>, i: nat, j: nat, k: (Id, Id)) returns (m: nat)
    requires Runs(s, steps) && i <= j <= |steps| && k !in At(s, steps, i).db.links && k in At(s, steps, j).db.links
    ensures i <= m < j && k !in At(s, steps, m).db.links && k in At(s, steps, m + 1).db.links
    decreases j
  {
    if k in At(s, steps, j - 1).db.links {
      m := LinkAppeared(s, steps, i, j - 1, k);
    } else {
      m := j - 1;
    }
  }

  lemma {:induction false} MadeAt(s: State, steps: seq<Step>, m: nat, k: (Id, Id))
    requires Runs(s, steps) && m < |steps|
    requires k !in At(s, steps, m).db.links && k in At(s, steps, m + 1).db.links
    ensures Enabled(At(s, steps, m), steps[m]) && MakesLink(At(s, steps, m), steps[m], k)
  {
    AtStep(s, steps, m);
    AddsLinkIff(At(s, steps, m), steps[m], k);
  }

  // What a claim that has copied commits, if nothing more falls between.
  lemma {:induction false} CopiedCommits(db: Db, t: ClaimTx, user: Id, granted: set<string>, k: (Id, Id))
    requires Writable(db, t) && t.phase.Copied? && t.other.Some? && t.other.value != t.id
    requires forall a :: a in t.added ==> a.1 == t.id
    ensures k in CommittedDb(db, Completed(db, t), user, granted).links <==>
      (k in db.links && k.1 != t.other.value) || k in t.added
  {
  }

  lemma {:induction false} FinishCopied(s: State, n: nat, user: Id, granted: set<string>) returns (steps: seq<Step>)
    requires Alone(s, n) && s.open[n].phase.Copied? && user !in s.db.users
    requires forall a :: a in s.open[n].added ==> a.1 == s.open[n].id
    ensures Runs(s, steps) && |steps| == 3
    ensures forall k :: k in After(s, steps).db.links <==>
      (k in s.db.links && Some(k.1) != s.open[n].other) || k in s.open[n].added
  {
    steps := FinishAlone(s, n, user, granted);
    forall k
      ensures k in After(s, steps).db.links <==>
        (k in s.db.links && Some(k.1) != s.open[n].other) || k in s.open[n].added
    {
      CopiedCommits(s.db, s.open[n], user, granted, k);
    }
  }

  lemma {:induction false} StaysAlone(s: State, s': State, n: nat)
    requires Alone(s, n) && !s.open[n].phase.Looked? && s'.open == s.open && s'.db.companies == s.db.companies
    ensures Alone(s', n)
  {
    SameNumbers(s.db, s'.db, s.open[n].id, s.open[n].other, s.open[n].npwp);
  }

  // From any state with a claim past its copy: a link made now is lost once the claim goes on.
  lemma {:induction false} LinkAfterCopyIsLost(s: State, n: nat, t: Id, actor: Option<Id>, user: Id,
          granted: set<string>)
    returns (steps: seq<Step>)
    requires Alone(s, n) && OwnLinks(s.db, s.open[n]) && s.open[n].phase.Copied? && user !in s.db.users
    requires Enabled(s, Link(t, s.open[n].other.value, actor))
    requires (t, s.open[n].id) !in s.db.links && (t, s.open[n].id) !in s.open[n].added
    ensures Runs(s, steps) && |steps| == 4 && steps[0] == Link(t, s.open[n].other.value, actor)
    ensures t in TransportersOf(Do(s, steps[0]).db, s.open[n].other.value)
    ensures t !in TransportersOf(After(s, steps).db, s.open[n].other.value)
    ensures t !in TransportersOf(After(s, steps).db, s.open[n].id)
  {
    var claim := s.open[n];
    var first := Link(t, claim.other.value, actor);
    var s1 := Do(s, first);
    StaysAlone(s, s1, n);
    steps := FinishCopied(s1, n, user, granted);
    steps := Prepend(s, first, steps);
    LinkedIff(s1.db, t, claim.other.value);
  }

  // And after a merge of the duplicate between the copy and the clear, what both copied is at both.
  lemma {:induction false} MergeAfterCopyKeepsBoth(s: State, n: nat, b: Id, c: Id, t: Id, user: Id,
          granted: set<string>)
    returns (steps: seq<Step>)
    requires Inv(s) && FoundOnly(s, n, b) && s.open[n].phase.Copied? && ActiveOf(s.db, b) == {} && user !in s.db.users
    requires Live(s.db, c) && c != b && c != s.open[n].id && !IsMerged(s.db, b) && !IsMerged(s.db, c)
    requires s.db.companies[c].npwp.Some? && t in TransportersOf(s.db, b) && (t, s.open[n].id) in s.open[n].added
    ensures Runs(s, steps) && |steps| == 4 && steps[0] == Merge(c, b)
    ensures t in TransportersOf(After(s, steps).db, s.open[n].id) && t in TransportersOf(After(s, steps).db, c)
  {
    MergeTakesLinks(s, n, b, c, t);
    steps := BothKeep(Do(s, Merge(c, b)), n, c, t, user, granted);
    steps := Prepend(s, Merge(c, b), steps);
  }

  lemma {:induction false} BothKeep(s: State, n: nat, c: Id, t: Id, user: Id, granted: set<string>)
    returns (steps: seq<Step>)
    requires Alone(s, n) && s.open[n].phase.Copied? && s.open[n].other != Some(c) && user !in s.db.users
    requires forall a :: a in s.open[n].added ==> a.1 == s.open[n].id
    requires (t, c) in s.db.links && (t, s.open[n].id) in s.open[n].added
    ensures Runs(s, steps) && |steps| == 3
    ensures t in TransportersOf(After(s, steps).db, s.open[n].id) && t in TransportersOf(After(s, steps).db, c)
  {
    steps := FinishCopied(s, n, user, granted);
    LinkedIff(After(s, steps).db, t, s.open[n].id);
    LinkedIff(After(s, steps).db, t, c);
  }

  lemma {:induction false} MergeTakesLinks(s: State, n: nat, b: Id, c: Id, t: Id)
    requires Inv(s) && FoundOnly(s, n, b) && s.open[n].phase.Copied? && ActiveOf(s.db, b) == {}
    requires Live(s.db, c) && c != b && c != s.open[n].id && !IsMerged(s.db, b) && !IsMerged(s.db, c)
    requires s.db.companies[c].npwp.Some? && t in TransportersOf(s.db, b)
    ensures Enabled(s, Merge(c, b)) && Do(s, Merge(c, b)).open == s.open && Alone(Do(s, Merge(c, b)), n)
    ensures (t, c) in Do(s, Merge(c, b)).db.links && Do(s, Merge(c, b)).db.users.Keys == s.db.users.Keys
    ensures OwnLinks(s.db, s.open[n])
  {
    assert OwnLinks(s.db, s.open[n]);
    MergeInsideClaim(s, n, b, c);
    MergeAccepted(s.db, b, c);
    TransportersConserved(s.db, c, b, c);
    LinkedIff(Merged(s.db, c, b), t, c);
    PeopleConserved(s.db, c, b, t);
  }

  // ---- Who is left in a folded company ----------------------------------------------------------------

  lemma {:induction false} MergeEnters(db: Db, survivor: Id, duplicate: Id, u: Id, company: Id)
    requires Refusal(db, survivor, duplicate).None? && u !in ActiveOf(db, company)
    ensures u in ActiveOf(MergeService.Trace(db, survivor, duplicate)[4], company) <==>
      survivor == company && u in ActiveOf(db, duplicate)
  {
    PeopleConserved(db, survivor, duplicate, u);
  }

  // What a step can do to put somebody into a company who was not there.
  lemma {:induction false} EntersIff(s: State, step: Step, u: Id, company: Id)
    requires OpenHolds(s) && Enabled(s, step) && u !in ActiveOf(s.db, company)
    ensures u in ActiveOf(Do(s, step).db, company) <==>
      || (step.ChangePeople? && u in ActiveOf(s.db.(users := step.users), company))
      || (step.Merge? && Folds(s, step).Some? && step.survivor == company && u in ActiveOf(s.db, step.duplicate))
      || (step.Commit? && s.open[step.tx].id == company && step.user == u)
  {
    if step.Merge? && Folds(s, step).Some? {
      MergeEnters(s.db, step.survivor, step.duplicate, u, company);
    } else if step.Commit? {
      assert MayWrite(s.db, s.open[step.tx].id, s.open[step.tx].other, s.open[step.tx].npwp);
    }
  }

  // Somebody who came in after the i-th step and is in the company ever since.
  ghost predicate CameToStay(s: State, steps: seq<Step>, company: Id, u: Id, i: nat)
    requires Runs(s, steps)
  {
    exists k :: i <= k < |steps| && Came(s, steps, company, u, k)
  }

  ghost predicate Came(s: State, steps: seq<Step>, company: Id, u: Id, k: nat)
    requires Runs(s, steps) && k < |steps|
  {
    && u !in ActiveOf(At(s, steps, k).db, company)
    && forall m :: k < m <= |steps| ==> u in ActiveOf(At(s, steps, m).db, company)
  }

  lemma {:induction false} LastEntry(s: State, steps: seq<Step>, company: Id, u: Id, i: nat, j: nat) returns (k: nat)
    requires Runs(s, steps) && i < j <= |steps| && u !in ActiveOf(At(s, steps, i).db, company)
    requires forall m :: j <= m <= |steps| ==> u in ActiveOf(At(s, steps, m).db, company)
    ensures i <= k < |steps| && Came(s, steps, company, u, k)
    decreases j
  {
    if u in ActiveOf(At(s, steps, j - 1).db, company) {
      k := LastEntry(s, steps, company, u, i, j - 1);
    } else {
      k := j - 1;
    }
  }

  // A commit leaves in the duplicate whoever is there, and deletes it.
  lemma {:induction false} CommitLeaves(db: Db, t: ClaimTx, user: Id, granted: set<string>)
    requires MayWrite(db, t.id, t.other, t.npwp) && t.other.Some?
    ensures ActiveOf(CommittedDb(db, t, user, granted), t.other.value) == ActiveOf(db, t.other.value) - {user}
    ensures
      var after := CommittedDb(db, t, user, granted);
      && t.other.value in after.companies && after.companies[t.other.value].deleted
      && after.companies[t.other.value].mergedInto == Some(t.id)
  {
    ClaimChangesRow(db, t.id, t.other, t.npwp, user, granted, t.other.value);
    assert CommittedDb(db, t, user, granted).users
        == db.users[user := User(Some(t.id), false, Some((t.id, ADMINISTRATOR)))];
  }

  lemma {:induction false} NobodyAtTheCount(s: State, steps: seq<Step>, n: nat, count: nat, copy: nat, clear: nat)
    requires Parts(s, steps, n, count, copy, clear)
    ensures n in After(s, steps).open && After(s, steps).open[n].other.Some?
    ensures ActiveOf(At(s, steps, count).db, After(s, steps).open[n].other.value) == {}
  {
    ClaimAtCommit(s, steps, n, count, copy, clear);
    AtStep(s, steps, count);
  }

  lemma {:induction false} InSinceIff(s: State, steps: seq<Step>, company: Id, u: Id, i: nat)
    requires Runs(s, steps) && i < |steps| && u !in ActiveOf(At(s, steps, i).db, company)
    ensures u in ActiveOf(After(s, steps).db, company) <==> CameToStay(s, steps, company, u, i)
  {
    AtEnd(s, steps);
    if u in ActiveOf(After(s, steps).db, company) {
      var k := LastEntry(s, steps, company, u, i, |steps|);
    }
  }

  // Exactly those who came into the duplicate after its people were counted, and stayed, are left in
  // a deleted company.
  lemma {:induction false} LeftBehindIff(s: State, steps: seq<Step>, n: nat, count: nat, copy: nat, clear: nat,
          user: Id, granted: set<string>, u: Id)
    requires Inv(s) && Parts(s, steps, n, count, copy, clear) && Enabled(After(s, steps), Commit(n, user, granted))
    ensures After(s, steps).open[n].other.Some?
    ensures
      var end := After(s, steps);
      var after, other := Do(end, Commit(n, user, granted)).db, end.open[n].other.value;
      && other in after.companies && after.companies[other].deleted
      && (u in ActiveOf(after, other) <==> CameToStay(s, steps, other, u, count))
  {
    var end := After(s, steps);
    RunKeepsInv(s, steps);
    OwnRowsAtCommit(end, n, user, granted);
    NobodyAtTheCount(s, steps, n, count, copy, clear);
    CommitLeaves(end.db, end.open[n], user, granted);
    InSinceIff(s, steps, end.open[n].other.value, u, count);
  }

  // From any state with a claim past its count: whoever joins the duplicate now is left behind.
  lemma {:induction false} JoinerIsLeftBehind(s: State, n: nat, u: Id, role: Option<(Id, string)>, user: Id,
          granted: set<string>)
    returns (steps: seq<Step>)
    requires Alone(s, n) && !s.open[n].phase.Held? && !s.open[n].phase.Looked?
    requires u !in s.db.users && user !in s.db.users && u != user
    ensures Runs(s, steps) && |steps| == 1 + PartsLeft(s.open[n])
    ensures steps[0] == ChangePeople(s.db.users[u := User(s.open[n].other, false, role)])
    ensures
      var after := After(s, steps).db;
      && u in ActiveOf(after, s.open[n].other.value) && s.open[n].other.value in after.companies
      && after.companies[s.open[n].other.value].deleted
  {
    var claim := s.open[n];
    var first := ChangePeople(s.db.users[u := User(claim.other, false, role)]);
    var s1 := Do(s, first);
    StaysAlone(s, s1, n);
    steps := FinishAlone(s1, n, user, granted);
    steps := Prepend(s, first, steps);
    CommitLeaves(s1.db, Completed(s1.db, claim), user, granted);
  }

  // ---- One claim can swallow another's company ----------------------------------------------------------

  // Another claim's commit enters no number this one waits for.
  lemma {:induction false} CommitKeepsFree(db: Db, t: ClaimTx, user: Id, granted: set<string>, id: Id, npwp: string)
    requires MayWrite(db, t.id, t.other, t.npwp) && NumberFree(db, id, Some(t.id), npwp)
    ensures NumberFree(CommittedDb(db, t, user, granted), id, Some(t.id), npwp)
  {
    var after := CommittedDb(db, t, user, granted);
    ClaimChangesRow(db, t.id, t.other, t.npwp, user, granted, t.id);
    forall o | o in after.companies && o != t.id ensures !IsDuplicate(after, o, id, npwp) {
      ClaimChangesRow(db, t.id, t.other, t.npwp, user, granted, o);
      assert !IsDuplicate(db, o, id, npwp);
    }
  }

  lemma {:induction false} CommitKeepsMayWrite(db: Db, t: ClaimTx, user: Id, granted: set<string>, u: ClaimTx)
    requires MayWrite(db, t.id, t.other, t.npwp) && MayWrite(db, u.id, u.other, u.npwp)
    requires u.id != t.id && t.other != Some(u.id)
    ensures MayWrite(CommittedDb(db, t, user, granted), u.id, u.other, u.npwp)
  {
    ClaimChangesRow(db, t.id, t.other, t.npwp, user, granted, u.id);
    if u.other.Some? {
      ClaimChangesRow(db, t.id, t.other, t.npwp, user, granted, u.other.value);
    }
  }

  lemma {:induction false} CommitMakesATenant(db: Db, t: ClaimTx, user: Id, granted: set<string>)
    requires MayWrite(db, t.id, t.other, t.npwp) && ActiveOf(db, t.id) == {} && user !in db.users
    ensures BecameTenant(db, CommittedDb(db, t, user, granted), t.id, t.npwp, user)
    ensures CommittedDb(db, t, user, granted).users.Keys == db.users.Keys + {user}
  {
    ClaimMakesATenant(db, t.id, t.other, t.npwp, user, granted);
    assert CommittedDb(db, t, user, granted).users == ClaimedDb(db, t.id, t.other, t.npwp, user, granted).users;
  }

  // A claim that has written, and one that has found the company it is taking.
  ghost predicate TakingAndFinding(s: State, n: nat, m: nat) {
    && n in s.open && m in s.open && n != m && s.open == map[n := s.open[n], m := s.open[m]]
    && s.open[n].phase.Written? && s.open[m].phase.Cleared? && s.open[m].other == Some(s.open[n].id)
    && NumberFree(s.db, s.open[m].id, s.open[m].other, s.open[m].npwp)
  }

  lemma {:induction false} TakingAndFindingApart(s: State, n: nat, m: nat)
    requires Inv(s) && TakingAndFinding(s, n, m)
    ensures
      var t, u := s.open[n], s.open[m];
      && MayWrite(s.db, t.id, t.other, t.npwp) && MayWrite(s.db, u.id, u.other, u.npwp) && LinksOfPhase(u)
      && ActiveOf(s.db, t.id) == {} && u.id != t.id && t.other != Some(u.id)
  {
    assert Locks(s.open[n], s.open[n].id) && Locks(s.open[m], s.open[m].id);
    assert OwnLinks(s.db, s.open[m]);
  }

  lemma {:induction false} CommitLeavesAlone(s: State, n: nat, m: nat, u: Id, granted: set<string>)
    requires TakingAndFinding(s, n, m) && Enabled(s, Commit(n, u, granted)) && ActiveOf(s.db, s.open[n].id) == {}
    requires MayWrite(s.db, s.open[n].id, s.open[n].other, s.open[n].npwp) && LinksOfPhase(s.open[m])
    requires MayWrite(s.db, s.open[m].id, s.open[m].other, s.open[m].npwp)
    requires s.open[m].id != s.open[n].id && s.open[n].other != Some(s.open[m].id)
    ensures Alone(Do(s, Commit(n, u, granted)), m) && Do(s, Commit(n, u, granted)).open[m] == s.open[m]
  {
    CommitKeepsFree(s.db, s.open[n], u, granted, s.open[m].id, s.open[m].npwp);
    CommitKeepsMayWrite(s.db, s.open[n], u, granted, s.open[m]);
    var s1 := Do(s, Commit(n, u, granted));
    OneLeft(s.open, n, m);
    assert s1.open == map[m := s.open[m]];
    assert s1.db == CommittedDb(s.db, s.open[n], u, granted);
  }

  lemma {:induction false} OneLeft(open: map<nat, ClaimTx>, n: nat, m: nat)
    requires n in open && m in open && n != m && open == map[n := open[n], m := open[m]]
    ensures open - {n} == map[m := open[m]]
  {
  }

  lemma {:induction false} FoldsInPeople(s: State, m: nat, id: Id, u: Id, v: Id, granted: set<string>)
    returns (steps: seq<Step>)
    requires Alone(s, m) && s.open[m].phase.Cleared? && s.open[m].other == Some(id) && ActiveOf(s.db, id) == {u}
    requires v !in s.db.users && u != v
    ensures Runs(s, steps) && |steps| == 2
    ensures u in ActiveOf(After(s, steps).db, id)
    ensures id in After(s, steps).db.companies && After(s, steps).db.companies[id].deleted
    ensures After(s, steps).db.companies[id].mergedInto == Some(s.open[m].id)
  {
    steps := FinishAlone(s, m, v, granted);
    CommitLeaves(s.db, Completed(s.db, s.open[m]), v, granted);
  }

  // A claim that has found the company another claim is taking goes on once that commits, and folds
  // the new tenant away with its administrator in it.
  lemma {:induction false} ClaimSwallowsATenant(s: State, n: nat, m: nat, u: Id, v: Id, granted: set<string>)
    returns (steps: seq<Step>)
    requires Inv(s) && TakingAndFinding(s, n, m) && u !in s.db.users && v !in s.db.users && u != v
    ensures Runs(s, steps) && |steps| == 3 && steps[0] == Commit(n, u, granted)
    ensures BecameTenant(s.db, Do(s, steps[0]).db, s.open[n].id, s.open[n].npwp, u)
    ensures
      var after, id := After(s, steps).db, s.open[n].id;
      && u in ActiveOf(after, id) && id in after.companies && after.companies[id].deleted
      && after.companies[id].mergedInto == Some(s.open[m].id)
  {
    TakingAndFindingApart(s, n, m);
    CommitMakesATenant(s.db, s.open[n], u, granted);
    CommitLeavesAlone(s, n, m, u, granted);
    var s1 := Do(s, Commit(n, u, granted));
    steps := FoldsInPeople(s1, m, s.open[n].id, u, v, granted);
    steps := Prepend(s, Commit(n, u, granted), steps);
  }

  // Two links are open, and one of the two companies holds the number both claimants give.
  ghost predicate TwoClaimable(db: Db, a: Id, c: Id, hashA: string, hashC: string, npwp: string, now: int) {
    && IndexesHold(db) && a != c && LinkNames(db, a, hashA) && LinkNames(db, c, hashC)
    && !Expired(db, a, now) && !Expired(db, c, now) && ActiveOf(db, a) == {} && ActiveOf(db, c) == {}
    && Holds(db, a, Some(npwp))
  }

  function Opened(s: State, first: ClaimTx, second: ClaimTx): State {
    s.(open := map[0 := first, 1 := second])
  }

  lemma {:induction false} BothHold(s: State, a: Id, c: Id, hashA: string, hashC: string, npwp: string, now: int)
    requires s.open == map[] && TwoClaimable(s.db, a, c, hashA, hashC, npwp, now)
    ensures Enabled(s, Hold(0, a, hashA, npwp, now))
    ensures
      var s1 := Do(s, Hold(0, a, hashA, npwp, now));
      && Enabled(s1, Hold(1, c, hashC, npwp, now))
      && Do(s1, Hold(1, c, hashC, npwp, now)) ==
           Opened(s, ClaimTx(a, hashA, npwp, None, Held, map[], {}), ClaimTx(c, hashC, npwp, None, Held, map[], {}))
  {
  }

  lemma {:induction false} BothLookUp(s: State, t: ClaimTx, u: ClaimTx)
    requires s.open == map[0 := t, 1 := u] && t.phase.Held? && u.phase.Held? && t.npwp == u.npwp && t.id != u.id
    requires IndexesHold(s.db) && Holds(s.db, t.id, Some(t.npwp))
    requires ActiveOf(s.db, t.id) == {} && ActiveOf(s.db, u.id) == {}
    ensures NumberFree(s.db, t.id, None, t.npwp) && NumberFree(s.db, u.id, Some(t.id), u.npwp)
    ensures Enabled(s, LookUp(0, None))
    ensures
      var s1 := Do(s, LookUp(0, None));
      && Enabled(s1, LookUp(1, Some(t.id)))
      && Do(s1, LookUp(1, Some(t.id))) ==
           Opened(s, t.(other := None, phase := Looked), u.(other := Some(t.id), phase := Looked))
  {
    OnlyHolder(s.db, u.id, t.id, t.npwp);
    forall o | o in s.db.companies && o != t.id ensures !IsDuplicate(s.db, o, t.id, t.npwp) {
      if IsDuplicate(s.db, o, t.id, t.npwp) {
        HolderIsUnique(s.db, Some(t.npwp), o, t.id);
      }
    }
  }

  // The second goes on while the first waits: nothing of the first's company is locked against it.
  lemma {:induction false} SecondGoesOn(s: State, t: ClaimTx, u: ClaimTx)
    requires s.open == map[0 := t, 1 := u] && t.removed == {} && u.removed == {} && u.other == Some(t.id)
    requires u.phase.Looked? || u.phase.Counted? || u.phase.Copied?
    requires u.phase.Looked? ==> ActiveOf(s.db, t.id) == {}
    ensures Enabled(s, NextPart(1, u))
    ensures
      var s1 := Do(s, NextPart(1, u));
      && 1 in s1.open && s1 == Opened(s, t, s1.open[1]) && PartsLeft(s1.open[1]) == PartsLeft(u) - 1
      && s1.open[1].id == u.id && s1.open[1].other == u.other && s1.open[1].npwp == u.npwp
      && (!s1.open[1].phase.Cleared? ==> s1.open[1].removed == {})
  {
  }

  lemma {:induction false} FirstWrites(s: State, t: ClaimTx, u: ClaimTx)
    requires s.open == map[0 := t, 1 := u] && t.phase.Looked? && t.other.None? && u.phase.Cleared?
    requires NumberFree(s.db, t.id, None, t.npwp)
    ensures Enabled(s, Write(0)) && Do(s, Write(0)) == Opened(s, t.(phase := Written), u)
  {
  }

  lemma {:induction false} SecondClears(s: State, t: ClaimTx, u: ClaimTx) returns (steps: seq<Step>, last: ClaimTx)
    requires s.open == map[0 := t, 1 := u] && t.removed == {} && u.other == Some(t.id) && ActiveOf(s.db, t.id) == {}
    requires (u.phase.Looked? || u.phase.Counted? || u.phase.Copied?) && u.removed == {}
    ensures Runs(s, steps) && |steps| == PartsLeft(u) - 2 && After(s, steps) == Opened(s, t, last)
    ensures last.phase.Cleared? && last.id == u.id && last.other == u.other && last.npwp == u.npwp
    decreases PartsLeft(u)
  {
    SecondGoesOn(s, t, u);
    var s1 := Do(s, NextPart(1, u));
    if s1.open[1].phase.Cleared? {
      steps, last := [], s1.open[1];
    } else {
      steps, last := SecondClears(s1, t, s1.open[1]);
    }
    steps := Prepend(s, NextPart(1, u), steps);
  }

  lemma {:induction false} Joined(s: State, a: seq<Step>, b: seq<Step>)
    requires Runs(s, a) && Runs(After(s, a), b)
    ensures Runs(s, a + b) && After(s, a + b) == After(After(s, a), b)
    decreases |a|
  {
    if a == [] {
      assert a + b == b;
    } else {
      Joined(Do(s, a[0]), a[1..], b);
      assert (a + b)[1..] == a[1..] + b;
    }
  }

  // Two claimants of one number, each with a link of their own: both get as far as they can before
  // the first commits.
  lemma {:induction false} BothReady(s: State, a: Id, c: Id, hashA: string, hashC: string, npwp: string, now: int)
    returns (steps: seq<Step>, first: ClaimTx, second: ClaimTx)
    requires s.open == map[] && TwoClaimable(s.db, a, c, hashA, hashC, npwp, now)
    ensures Runs(s, steps) && |steps| == 8 && After(s, steps) == Opened(s, first, second)
    ensures first.id == a && first.npwp == npwp && first.phase.Written? && second.phase.Cleared?
    ensures second.id == c && second.other == Some(a) && NumberFree(s.db, second.id, second.other, second.npwp)
  {
    var t := ClaimTx(a, hashA, npwp, None, Held, map[], {});
    var u := ClaimTx(c, hashC, npwp, None, Held, map[], {});
    BothHold(s, a, c, hashA, hashC, npwp, now);
    var held := Opened(s, t, u);
    BothLookUp(held, t, u);
    var looked := Opened(s, t.(phase := Looked), u.(other := Some(a), phase := Looked));
    var parts: seq<Step>;
    parts, second := SecondClears(looked, t.(phase := Looked), u.(other := Some(a), phase := Looked));
    first := t.(phase := Written);
    FirstWrites(Opened(s, t.(phase := Looked), second), t.(phase := Looked), second);
    var writes := Prepend(Opened(s, t.(phase := Looked), second), Write(0), []);
    Joined(looked, parts, writes);
    steps := Prepend(Do(held, LookUp(0, None)), LookUp(1, Some(a)), parts + writes);
    steps := Prepend(held, LookUp(0, None), steps);
    steps := Prepend(Do(s, Hold(0, a, hashA, npwp, now)), Hold(1, c, hashC, npwp, now), steps);
    steps := Prepend(s, Hold(0, a, hashA, npwp, now), steps);
  }

  // From any state at rest: both claims succeed, and the first claimant ends up administering a
  // company that is deleted and merged into the second's.
  lemma {:induction false} TwoClaimsOfOneNumber(s: State, a: Id, c: Id, hashA: string, hashC: string, npwp: string,
          now: int, u: Id, v: Id, granted: set<string>)
    returns (steps: seq<Step>)
    requires Inv(s) && s.open == map[] && TwoClaimable(s.db, a, c, hashA, hashC, npwp, now)
    requires u !in s.db.users && v !in s.db.users && u != v
    ensures Runs(s, steps) && |steps| == 11
    ensures
      var after := After(s, steps).db;
      && u in ActiveOf(after, a) && a in after.companies && after.companies[a].deleted
      && after.companies[a].mergedInto == Some(c)
  {
    var ready, first, second := BothReady(s, a, c, hashA, hashC, npwp, now);
    RunKeepsInv(s, ready);
    var rest := ClaimSwallowsATenant(After(s, ready), 0, 1, u, v, granted);
    Joined(s, ready, rest);
    steps := ready + rest;
  }
}
