// What claims keep in every run, and a claim with nothing between its parts.
module ClaimRuns {
  import opened Prelude
  import opened Companies
  import opened ShipperService
  import opened CompanyRuns
  import E = Entitlement

  lemma {:induction false} OnlyHolder(db: Db, a: Id, b: Id, npwp: string)
    requires IndexesHold(db) && Holds(db, b, Some(npwp))
    ensures NumberFree(db, a, Some(b), npwp)
  {
    forall o | o in db.companies && o != b ensures !IsDuplicate(db, o, a, npwp) {
      if IsDuplicate(db, o, a, npwp) {
        HolderIsUnique(db, Some(npwp), o, b);
      }
    }
  }

  lemma {:induction false} Prepend(s: State, step: Step, rest: seq<Step>) returns (steps: seq<Step>)
    requires Enabled(s, step) && Runs(Do(s, step), rest)
    ensures steps == [step] + rest && Runs(s, steps) && After(s, steps) == After(Do(s, step), rest)
  {
    steps := [step] + rest;
    assert steps[1..] == rest;
  }

  // ---- A claim left alone ---------------------------------------------------------------------------

  // What the rest of a claim will have written, once its duplicate is looked up, if nothing falls
  // between.
  function Completed(db: Db, t: ClaimTx): ClaimTx
    requires t.other.Some?
  {
    t.(phase := Written,
       added := if t.phase.Looked? || t.phase.Counted? then LinksAdded(db, t.other.value, t.id) else t.added,
       removed := if t.phase.Cleared? || t.phase.Written? then t.removed else LinkKeys(db, t.other.value))
  }

  function NextPart(n: nat, t: ClaimTx): Step
    requires !t.phase.Held? && !t.phase.Written?
  {
    match t.phase
    case Looked => Count(n)
    case Counted => Copy(n)
    case Copied => Clear(n)
    case Cleared => Write(n)
  }

  function PartsLeft(t: ClaimTx): nat {
    match t.phase
    case Held => 6
    case Looked => 5
    case Counted => 4
    case Copied => 3
    case Cleared => 2
    case Written => 1
  }

  // The only claim under way, and it may go on to its commit.
  ghost predicate Alone(s: State, n: nat) {
    && n in s.open && s.open == map[n := s.open[n]]
    && var t := s.open[n];
       && LinksOfPhase(t) && t.other.Some? && MayWrite(s.db, t.id, t.other, t.npwp)
       && (t.phase.Looked? ==> ActiveOf(s.db, t.other.value) == {})
       && (!t.phase.Written? ==> NumberFree(s.db, t.id, t.other, t.npwp))
  }

  lemma {:induction false} NextPartAlone(s: State, n: nat)
    requires Alone(s, n) && !s.open[n].phase.Held? && !s.open[n].phase.Written?
    ensures
      var part := NextPart(n, s.open[n]);
      && Enabled(s, part) && Alone(Do(s, part), n) && Do(s, part).db == s.db
      && PartsLeft(Do(s, part).open[n]) == PartsLeft(s.open[n]) - 1
      && Completed(s.db, Do(s, part).open[n]) == Completed(s.db, s.open[n])
  {
  }

  lemma {:induction false} FinishAlone(s: State, n: nat, user: Id, granted: set<string>) returns (steps: seq<Step>)
    requires Alone(s, n) && !s.open[n].phase.Held? && user !in s.db.users
    ensures Runs(s, steps) && |steps| == PartsLeft(s.open[n])
    ensures After(s, steps).db == CommittedDb(s.db, Completed(s.db, s.open[n]), user, granted)
    decreases PartsLeft(s.open[n])
  {
    if s.open[n].phase.Written? {
      steps := Prepend(s, Commit(n, user, granted), []);
    } else {
      var part := NextPart(n, s.open[n]);
      NextPartAlone(s, n);
      steps := FinishAlone(Do(s, part), n, user, granted);
      steps := Prepend(s, part, steps);
    }
  }

  lemma {:induction false} SerialLinks(db: Db, id: Id, other: Option<Id>, npwp: string, user: Id, granted: set<string>)
    requires MayWrite(db, id, other, npwp) && other.Some?
    ensures ClaimedDb(db, id, other, npwp, user, granted).links ==
      db.links - LinkKeys(db, other.value) + LinksAdded(db, other.value, id)
  {
    var links := FoldInTrace(db, id, other.value)[2].links;
    assert links == db.links - LinkKeys(db, other.value) + LinksAdded(db, other.value, id);
  }

  // With nothing beside it the claim writes what the serial method does.
  lemma {:induction false} ClaimAloneIsSerial(s: State, n: nat, user: Id, granted: set<string>)
    returns (steps: seq<Step>)
    requires Alone(s, n) && s.open[n].phase.Looked? && user !in s.db.users
    ensures Runs(s, steps) && |steps| == 5
    ensures
      var t := s.open[n];
      After(s, steps).db == ClaimedDb(s.db, t.id, t.other, t.npwp, user, granted)
  {
    var t := s.open[n];
    steps := FinishAlone(s, n, user, granted);
    SerialLinks(s.db, t.id, t.other, t.npwp, user, granted);
  }

  // ---- Claims ---------------------------------------------------------------------------------

  // Whatever interleaves, a link claims at most once.
  lemma {:induction false} EachLinkClaimsOnce(s: State, steps: seq<Step>, i: nat, j: nat)
    requires Inv(s) && Runs(s, steps) && i < j < |After(s, steps).claims|
    ensures After(s, steps).claims[i].0 != After(s, steps).claims[j].0
  {
    RunKeepsInv(s, steps);
  }

  // Only the last link issued for a company can claim it, however issuing interleaves with the
  // claim: the row is held from the moment the link is read.
  lemma {:induction false} OnlyTheLastLinkClaims(s: State, steps: seq<Step>, n: nat, user: Id, granted: set<string>)
    requires Inv(s) && Runs(s, steps) && Enabled(After(s, steps), Commit(n, user, granted))
    ensures
      var end := After(s, steps);
      LinkNames(end.db, end.open[n].id, end.open[n].hash) && LastIssued(end, end.open[n].id, end.open[n].hash)
  {
    RunKeepsInv(s, steps);
  }

  // And whatever fell between its parts, a claim that commits makes its company a tenant: nobody
  // could come in since the look-up.
  lemma {:induction false} EveryClaimMakesATenant(s: State, steps: seq<Step>, n: nat, user: Id, granted: set<string>)
    requires Inv(s) && Runs(s, steps) && Enabled(After(s, steps), Commit(n, user, granted))
    ensures
      var end := After(s, steps);
      var after := Do(end, Commit(n, user, granted)).db;
      && BecameTenant(end.db, after, end.open[n].id, end.open[n].npwp, user)
      && (forall m :: m in granted ==> Entitles(end.db, after, end.open[n].id, m))
    ensures
      var end := After(s, steps);
      var t := end.open[n];
      ClaimLeaves(end.db, Do(end, Commit(n, user, granted)).db, t.id, t.other, t.npwp, user, granted)
  {
    RunKeepsInv(s, steps);
    var end := After(s, steps);
    var t := end.open[n];
    ClaimMakesATenant(end.db, t.id, t.other, t.npwp, user, granted);
    ClaimedLeaves(end.db, t.id, t.other, t.npwp, user, granted);
    forall m | m in granted ensures Entitles(end.db, Do(end, Commit(n, user, granted)).db, t.id, m) {
      ClaimEntitles(end.db, t.id, t.other, t.npwp, user, granted, m);
    }
  }

  // So a company nothing was stated about holds exactly the starting modules once it is claimed.
  lemma {:induction false} EveryClaimHoldsExactly(s: State, steps: seq<Step>, n: nat, user: Id, granted: set<string>,
          today: int, registry: E.Registry, product: string, feature: string)
    requires Inv(s) && Runs(s, steps) && Enabled(After(s, steps), Commit(n, user, granted))
    requires
      var end, id := After(s, steps).db, After(s, steps).open[n].id;
      (forall k :: k in end.modules ==> k.0 != id) && (forall k :: k in end.modes ==> k.0 != id)
    ensures
      var end, id := After(s, steps), After(s, steps).open[n].id;
      E.Holds(StatementsOf(Do(end, Commit(n, user, granted)).db, id), today, registry, product, feature) <==>
        product == "tms" && feature in granted
  {
    var end := After(s, steps);
    EveryClaimMakesATenant(s, steps, n, user, granted);
    ClaimedHoldsExactly(end.db, Do(end, Commit(n, user, granted)).db, end.open[n].id, granted, today, registry, product,
        feature);
  }
}
