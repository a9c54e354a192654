// The pointers merges and claims leave behind: whether they end, what moves one, how far one hop
// goes, and the merge of a duplicate inside a claim.
module MergePointers {
  import opened Prelude
  import opened Companies
  import opened MergeService
  import opened ShipperService
  import opened CompanyRuns
  import opened ClaimRuns

  // ---- Merged companies stay deleted, unless imported again -------------------------------------------

  ghost predicate MergedAreGone(db: Db) {
    forall id :: IsMerged(db, id) ==> db.companies[id].deleted
  }

  // Exactly one step makes a merged company live: an import whose export still holds it undeleted.
  lemma {:induction false} StepKeepsMergedGoneIff(s: State, step: Step)
    requires Inv(s) && MergedAreGone(s.db) && Enabled(s, step)
    ensures MergedAreGone(Do(s, step).db) <==> !Revives(s, step)
  {
    var after := Do(s, step).db;
    if Revives(s, step) {
      assert IsMerged(after, step.id) && !after.companies[step.id].deleted;
    } else {
      forall id | IsMerged(after, id) ensures after.companies[id].deleted {
        if id in s.db.companies {
          StepChangesRow(s, step, id);
        } else {
          StepAddsRow(s, step, id);
        }
      }
    }
  }

  ghost predicate NeverRevives(s: State, steps: seq<Step>)
    requires Runs(s, steps)
    decreases |steps|
  {
    steps == [] || (!Revives(s, steps[0]) && NeverRevives(Do(s, steps[0]), steps[1..]))
  }

  // ---- Pointers, and when they form a cycle -----------------------------------------------------------

  // Merged companies can be numbered so that every pointer leads to a company not merged or
  // numbered higher.
  ghost predicate Ranked(db: Db, rank: map<Id, nat>, bound: nat) {
    forall id :: IsMerged(db, id) ==>
      && id in rank && rank[id] < bound
      && (IsMerged(db, db.companies[id].mergedInto.value) ==>
            db.companies[id].mergedInto.value in rank && rank[id] < rank[db.companies[id].mergedInto.value])
  }

  ghost predicate Acyclic(db: Db) {
    exists rank, bound :: Ranked(db, rank, bound)
  }

  // A database with no merge, no open link and no claim under way is a start.
  lemma {:induction false} UnmergedIsAStart(db: Db)
    requires IndexesHold(db)
    requires forall id :: id in db.companies ==> db.companies[id].mergedInto.None? && db.companies[id].claimHash.None?
    ensures Inv(State(db, [], [], map[])) && Acyclic(db) && MergedAreGone(db)
  {
    assert Ranked(db, map[], 0);
  }

  function Follow(db: Db, id: Id, hops: nat): Id
    decreases hops
  {
    if hops == 0 then id else Follow(db, Hop(db, id), hops - 1)
  }

  lemma {:induction false} PointersClimb(db: Db, rank: map<Id, nat>, bound: nat, id: Id, hops: nat)
    requires Ranked(db, rank, bound) && IsMerged(db, id) && hops > 0
    ensures IsMerged(db, Follow(db, id, hops)) ==> rank[id] < rank[Follow(db, id, hops)]
    ensures Follow(db, id, hops) != id
    decreases hops
  {
    var next := Hop(db, id);
    if IsMerged(db, next) {
      if hops > 1 {
        PointersClimb(db, rank, bound, next, hops - 1);
      }
    } else {
      StaysPut(db, next, hops - 1);
    }
  }

  lemma {:induction false} StaysPut(db: Db, id: Id, hops: nat)
    requires !IsMerged(db, id)
    ensures Follow(db, id, hops) == id
  {
    if hops > 0 {
      StaysPut(db, id, hops - 1);
    }
  }

  lemma {:induction false} ClimbEnds(db: Db, rank: map<Id, nat>, bound: nat, id: Id) returns (hops: nat)
    requires Ranked(db, rank, bound) && PointersLand(db) && id in db.companies
    ensures Follow(db, id, hops) in db.companies && !IsMerged(db, Follow(db, id, hops))
    decreases if IsMerged(db, id) then bound - rank[id] else 0
  {
    hops := 0;
    if IsMerged(db, id) {
      hops := ClimbEnds(db, rank, bound, Hop(db, id));
      hops := hops + 1;
    }
  }

  ghost predicate Reaches(db: Db, from: Id, to: Id) {
    exists hops: nat :: Follow(db, from, hops) == to
  }

  ghost predicate OnCycle(db: Db, id: Id) {
    exists hops: nat :: hops > 0 && Follow(db, id, hops) == id
  }

  lemma {:induction false} FollowOn(db: Db, id: Id, hops: nat)
    ensures Follow(db, id, hops + 1) == Hop(db, Follow(db, id, hops))
    decreases hops
  {
    if hops > 0 {
      FollowOn(db, Hop(db, id), hops - 1);
    }
  }

  lemma {:induction false} ReachesOn(db: Db, from: Id, to: Id)
    requires Reaches(db, from, to)
    ensures Reaches(db, from, Hop(db, to))
  {
    var hops: nat :| Follow(db, from, hops) == to;
    FollowOn(db, from, hops);
  }

  ghost predicate PointerMoved(db: Db, after: Db, f: Option<(Id, Id)>, id: Id) {
    if f.Some? && f.value.0 == id then IsMerged(after, id) && after.companies[id].mergedInto == Some(f.value.1)
    else
      && (IsMerged(after, id) <==> IsMerged(db, id))
      && (IsMerged(db, id) ==> after.companies[id].mergedInto == db.companies[id].mergedInto)
  }

  // What a step does to the pointer graph: at most one row is pointed elsewhere.
  lemma {:induction false} StepMovesPointer(s: State, step: Step, id: Id)
    requires Inv(s) && Enabled(s, step)
    ensures PointerMoved(s.db, Do(s, step).db, Folds(s, step), id)
  {
    if id in s.db.companies {
      StepChangesRow(s, step, id);
    } else if id in Do(s, step).db.companies {
      StepAddsRow(s, step, id);
    }
    if Folds(s, step).Some? {
      FoldsAreRows(s, step);
    }
  }

  // Up to the first arrival at a row, pointers are the same whatever that row's own pointer is.
  lemma {:induction false} PathAgrees(a: Db, b: Db, from: Id, to: Id, hops: nat) returns (k: nat)
    requires forall x :: x != to ==> Hop(a, x) == Hop(b, x)
    requires Follow(a, from, hops) == to
    ensures k <= hops && Follow(b, from, k) == to
    decreases hops
  {
    if from == to {
      k := 0;
    } else {
      k := PathAgrees(a, b, Hop(a, from), to, hops - 1);
      k := k + 1;
    }
  }

  // Folding one row into another closes a cycle exactly when the other already leads to it.
  lemma {:induction false} FoldClosesACycleIff(db: Db, after: Db, id: Id, other: Id)
    requires forall x :: x != other ==> Hop(after, x) == Hop(db, x)
    requires Hop(after, other) == id && id != other
    ensures OnCycle(after, other) <==> Reaches(db, id, other)
  {
    if OnCycle(after, other) {
      var hops: nat :| hops > 0 && Follow(after, other, hops) == other;
      var k := PathAgrees(after, db, id, other, hops - 1);
    }
    if Reaches(db, id, other) {
      var hops: nat :| Follow(db, id, hops) == other;
      var k := PathAgrees(db, after, id, other, hops);
      assert Follow(after, other, k + 1) == other;
    }
  }

  lemma {:induction false} CommitMovesOnePointer(s: State, n: nat, user: Id, granted: set<string>)
    requires Inv(s) && Enabled(s, Commit(n, user, granted)) && s.open[n].other.Some?
    ensures
      var after := Do(s, Commit(n, user, granted)).db;
      && Hop(after, s.open[n].other.value) == s.open[n].id
      && forall x :: x != s.open[n].other.value ==> Hop(after, x) == Hop(s.db, x)
  {
    assert MayWrite(s.db, s.open[n].id, s.open[n].other, s.open[n].npwp);
    CommitMovesOneHop(s.db, s.open[n], user, granted);
  }

  // So a claim closes a cycle exactly when the claimed company, merged and live again, leads to the
  // duplicate it folds in.
  lemma {:induction false} CommitClosesACycleIff(s: State, n: nat, user: Id, granted: set<string>)
    requires Inv(s) && Enabled(s, Commit(n, user, granted)) && s.open[n].other.Some?
    ensures OnCycle(Do(s, Commit(n, user, granted)).db, s.open[n].other.value) <==>
      Reaches(s.db, s.open[n].id, s.open[n].other.value)
  {
    CommitMovesOnePointer(s, n, user, granted);
    FoldClosesACycleIff(s.db, Do(s, Commit(n, user, granted)).db, s.open[n].id, s.open[n].other.value);
  }

  // Exactly such a commit closes a cycle.
  ghost predicate ClosesCycle(s: State, step: Step) {
    && step.Commit? && step.tx in s.open && s.open[step.tx].other.Some?
    && Reaches(s.db, s.open[step.tx].id, s.open[step.tx].other.value)
  }

  // Everything `into` leads to is lifted above the old bound, and the folded row goes in between.
  ghost function Reranked(db: Db, rank: map<Id, nat>, bound: nat, folded: Id, into: Id): map<Id, nat> {
    map x | x in rank.Keys + {folded} ::
      if x == folded then bound else if Reaches(db, into, x) then rank[x] + bound + 1 else rank[x]
  }

  lemma {:induction false} FoldKeepsRanked(db: Db, after: Db, folded: Id, into: Id, rank: map<Id, nat>, bound: nat)
    requires Ranked(db, rank, bound) && !Reaches(db, into, folded)
    requires forall id :: PointerMoved(db, after, Some((folded, into)), id)
    ensures Ranked(after, Reranked(db, rank, bound, folded, into), 2 * bound + 1)
  {
    var rank' := Reranked(db, rank, bound, folded, into);
    assert Follow(db, into, 0) == into;
    forall id | IsMerged(after, id)
      ensures id in rank' && rank'[id] < 2 * bound + 1
      ensures IsMerged(after, after.companies[id].mergedInto.value) ==>
        after.companies[id].mergedInto.value in rank' && rank'[id] < rank'[after.companies[id].mergedInto.value]
    {
      assert PointerMoved(db, after, Some((folded, into)), id);
      assert PointerMoved(db, after, Some((folded, into)), after.companies[id].mergedInto.value);
      if id != folded && Reaches(db, into, id) {
        ReachesOn(db, into, id);
      }
    }
  }

  // A merge folds into a company that was not merged, so nothing leads back.
  lemma {:induction false} FoldLeadsAway(s: State, step: Step)
    requires Inv(s) && Enabled(s, step) && Folds(s, step).Some? && !ClosesCycle(s, step)
    ensures !Reaches(s.db, Folds(s, step).value.1, Folds(s, step).value.0)
  {
    FoldsAreRows(s, step);
    if step.Merge? {
      forall hops: nat ensures Follow(s.db, Folds(s, step).value.1, hops) != Folds(s, step).value.0 {
        StaysPut(s.db, Folds(s, step).value.1, hops);
      }
    }
  }

  lemma {:induction false} SamePointersKeepRanked(db: Db, after: Db, rank: map<Id, nat>, bound: nat)
    requires Ranked(db, rank, bound) && (forall id :: PointerMoved(db, after, None, id))
    ensures Ranked(after, rank, bound)
  {
    forall id | IsMerged(after, id)
      ensures id in rank && rank[id] < bound
      ensures IsMerged(after, after.companies[id].mergedInto.value) ==>
        after.companies[id].mergedInto.value in rank && rank[id] < rank[after.companies[id].mergedInto.value]
    {
      assert PointerMoved(db, after, None, id) && PointerMoved(db, after, None, after.companies[id].mergedInto.value);
    }
  }

  lemma {:induction false} PointersKeepAcyclic(db: Db, after: Db, f: Option<(Id, Id)>)
    requires Acyclic(db) && (forall id :: PointerMoved(db, after, f, id))
    requires f.Some? ==> !Reaches(db, f.value.1, f.value.0)
    ensures Acyclic(after)
  {
    var rank, bound :| Ranked(db, rank, bound);
    if f.Some? {
      FoldKeepsRanked(db, after, f.value.0, f.value.1, rank, bound);
    } else {
      SamePointersKeepRanked(db, after, rank, bound);
    }
  }

  lemma {:induction false} CycleIsUnranked(db: Db, id: Id)
    requires Acyclic(db) && IsMerged(db, id)
    ensures !OnCycle(db, id)
  {
    var rank, bound :| Ranked(db, rank, bound);
    forall hops: nat | hops > 0 ensures Follow(db, id, hops) != id {
      PointersClimb(db, rank, bound, id, hops);
    }
  }

  // The graph stays acyclic at a step exactly when the step is no such commit: merges never chain
  // into a cycle, and neither do claims of merged companies that lead elsewhere.
  lemma {:induction false} StepKeepsAcyclicIff(s: State, step: Step)
    requires Inv(s) && Acyclic(s.db) && Enabled(s, step)
    ensures Acyclic(Do(s, step).db) <==> !ClosesCycle(s, step)
  {
    if ClosesCycle(s, step) {
      var other := s.open[step.tx].other.value;
      CommitClosesACycleIff(s, step.tx, step.user, step.granted);
      StepChangesRow(s, step, other);
      if Acyclic(Do(s, step).db) {
        CycleIsUnranked(Do(s, step).db, other);
      }
    } else {
      forall id ensures PointerMoved(s.db, Do(s, step).db, Folds(s, step), id) {
        StepMovesPointer(s, step, id);
      }
      if Folds(s, step).Some? {
        FoldLeadsAway(s, step);
      }
      PointersKeepAcyclic(s.db, Do(s, step).db, Folds(s, step));
    }
  }

  // ---- Runs that stay acyclic ---------------------------------------------------------------------------

  ghost predicate AcyclicThroughout(s: State, steps: seq<Step>)
    requires Runs(s, steps)
    decreases |steps|
  {
    Acyclic(s.db) && (steps == [] || AcyclicThroughout(Do(s, steps[0]), steps[1..]))
  }

  ghost predicate NeverCloses(s: State, steps: seq<Step>)
    requires Runs(s, steps)
    decreases |steps|
  {
    steps == [] || (!ClosesCycle(s, steps[0]) && NeverCloses(Do(s, steps[0]), steps[1..]))
  }

  lemma {:induction false} RunStaysAcyclicIff(s: State, steps: seq<Step>)
    requires Inv(s) && Acyclic(s.db) && Runs(s, steps)
    ensures AcyclicThroughout(s, steps) <==> NeverCloses(s, steps)
    ensures NeverCloses(s, steps) ==> Acyclic(After(s, steps).db)
    decreases |steps|
  {
    if steps != [] {
      StepKeepsAcyclicIff(s, steps[0]);
      StepKeepsInv(s, steps[0]);
      if Acyclic(Do(s, steps[0]).db) {
        RunStaysAcyclicIff(Do(s, steps[0]), steps[1..]);
      }
    }
  }

  // In every run without such a commit, claims of merged companies included: no pointers return to
  // where they started, and following them from any company ends at one that was not merged.
  lemma {:induction false} PointersNeverCycle(s: State, steps: seq<Step>, id: Id) returns (hops: nat)
    requires Inv(s) && Acyclic(s.db) && Runs(s, steps) && NeverCloses(s, steps)
    requires id in After(s, steps).db.companies
    ensures IsMerged(After(s, steps).db, id) ==> !OnCycle(After(s, steps).db, id)
    ensures !IsMerged(After(s, steps).db, Follow(After(s, steps).db, id, hops))
  {
    RunKeepsInv(s, steps);
    RunStaysAcyclicIff(s, steps);
    var db := After(s, steps).db;
    if IsMerged(db, id) {
      CycleIsUnranked(db, id);
    }
    var rank, bound :| Ranked(db, rank, bound);
    hops := ClimbEnds(db, rank, bound, id);
  }

  // No claim under way is of a company that was itself merged.
  ghost predicate OpenUnmerged(s: State) {
    forall n :: n in s.open ==> !IsMerged(s.db, s.open[n].id)
  }

  predicate HoldsMerged(s: State, step: Step) {
    step.Hold? && IsMerged(s.db, step.id)
  }

  lemma {:induction false} StepKeepsOpenUnmerged(s: State, step: Step)
    requires OpenHolds(s) && LocksApart(s) && OpenUnmerged(s) && Enabled(s, step) && !HoldsMerged(s, step)
    ensures OpenUnmerged(Do(s, step))
  {
    var s' := Do(s, step);
    forall n | n in s'.open && n in s.open ensures !IsMerged(s'.db, s'.open[n].id) {
      LockedRowKept(s, step, n, s.open[n].id);
    }
  }

  ghost predicate NeverHoldsMerged(s: State, steps: seq<Step>)
    requires Runs(s, steps)
    decreases |steps|
  {
    steps == [] || (!HoldsMerged(s, steps[0]) && NeverHoldsMerged(Do(s, steps[0]), steps[1..]))
  }

  // Claiming no merged company is enough: an unmerged one leads nowhere.
  lemma {:induction false} UnmergedNeverCloses(s: State, steps: seq<Step>)
    requires Inv(s) && OpenUnmerged(s) && Runs(s, steps) && NeverHoldsMerged(s, steps)
    ensures NeverCloses(s, steps)
    decreases |steps|
  {
    if steps != [] {
      if ClosesCycle(s, steps[0]) {
        var t := s.open[steps[0].tx];
        var hops: nat :| Follow(s.db, t.id, hops) == t.other.value;
        StaysPut(s.db, t.id, hops);
        assert false;
      }
      StepKeepsOpenUnmerged(s, steps[0]);
      StepKeepsInv(s, steps[0]);
      UnmergedNeverCloses(Do(s, steps[0]), steps[1..]);
    }
  }

  // Where no import revives a merged company, merged companies stay deleted, so none is claimed.
  lemma {:induction false} NeverRevivedNeverHeld(s: State, steps: seq<Step>)
    requires Inv(s) && MergedAreGone(s.db) && Runs(s, steps) && NeverRevives(s, steps)
    ensures NeverHoldsMerged(s, steps) && MergedAreGone(After(s, steps).db)
    decreases |steps|
  {
    if steps != [] {
      StepKeepsMergedGoneIff(s, steps[0]);
      StepKeepsInv(s, steps[0]);
      NeverRevivedNeverHeld(Do(s, steps[0]), steps[1..]);
    }
  }

  // So where no import revives a merged company nothing need be asked, and merged means deleted.
  lemma {:induction false} UnrevivedRunsAreSound(s: State, steps: seq<Step>, id: Id) returns (hops: nat)
    requires Inv(s) && Acyclic(s.db) && MergedAreGone(s.db) && s.open == map[] && Runs(s, steps)
    requires NeverRevives(s, steps)
    requires id in After(s, steps).db.companies
    ensures IsMerged(After(s, steps).db, id) ==> After(s, steps).db.companies[id].deleted
    ensures IsMerged(After(s, steps).db, id) ==> !OnCycle(After(s, steps).db, id)
    ensures !IsMerged(After(s, steps).db, Follow(After(s, steps).db, id, hops))
  {
    NeverRevivedNeverHeld(s, steps);
    UnmergedNeverCloses(s, steps);
    hops := PointersNeverCycle(s, steps, id);
  }

  // ---- The cycle a revived company can close ----------------------------------------------------------

  function Revived(db: Db, id: Id): Db
    requires id in db.companies
  {
    WithCompany(db, id, db.companies[id].(deleted := false))
  }

  lemma {:induction false} RevivalKeepsIndexes(db: Db, id: Id)
    requires IndexesHold(db) && id in db.companies
    requires TaxKey(db.companies[id].npwp).None? && TaxKey(db.companies[id].nib).None?
    ensures IndexesHold(Revived(db, id))
  {
    WriteKeepsTaxUnique(db, id, db.companies[id].(deleted := false));
  }

  // From any state at rest: a company folded into another, imported again and then claimed with
  // the number of the company it was folded into, points at it and is pointed at by it.
  lemma {:induction false} RevivedClaimClosesACycle(s: State, a: Id, b: Id, hash: string, npwp: string, user: Id,
          granted: set<string>, now: int)
    returns (steps: seq<Step>)
    requires Inv(s) && s.open == map[] && !WasIssued(s, hash) && user !in s.db.users
    requires IsMerged(s.db, a) && Hop(s.db, a) == b && ActiveOf(s.db, a) == {} && ActiveOf(s.db, b) == {}
    requires TaxKey(s.db.companies[a].npwp).None? && TaxKey(s.db.companies[a].nib).None?
    requires TaxKey(Some(npwp)).Some? && Holds(s.db, b, Some(npwp))
    ensures Runs(s, steps) && |steps| == 9 && steps[0] == Reimport(a, s.db.companies[a].(deleted := false))
    ensures Hop(After(s, steps).db, a) == b && Hop(After(s, steps).db, b) == a
  {
    var first := Reimport(a, s.db.companies[a].(deleted := false));
    ReviveAndIssue(s, a, b, hash, npwp, now);
    var s1 := Do(s, first);
    steps := ClaimOf(Do(s1, Issue(a, hash, now)), a, b, hash, npwp, user, granted, now);
    steps := Prepend(s1, Issue(a, hash, now), steps);
    steps := Prepend(s, first, steps);
  }

  // The import makes the company live again, and a link can be issued for it.
  lemma {:induction false} ReviveAndIssue(s: State, a: Id, b: Id, hash: string, npwp: string, now: int)
    requires Inv(s) && s.open == map[] && !WasIssued(s, hash)
    requires IsMerged(s.db, a) && Hop(s.db, a) == b && ActiveOf(s.db, a) == {} && ActiveOf(s.db, b) == {}
    requires TaxKey(s.db.companies[a].npwp).None? && TaxKey(s.db.companies[a].nib).None?
    requires TaxKey(Some(npwp)).Some? && Holds(s.db, b, Some(npwp))
    ensures Enabled(s, Reimport(a, s.db.companies[a].(deleted := false)))
    ensures
      var revived := Do(s, Reimport(a, s.db.companies[a].(deleted := false)));
      && Inv(revived) && Enabled(revived, Issue(a, hash, now))
      && var issued := Do(revived, Issue(a, hash, now));
         && Inv(issued) && issued.open == map[] && issued.db.users == s.db.users && Hop(issued.db, a) == b
         && LinkNames(issued.db, a, hash) && !Expired(issued.db, a, now) && Holds(issued.db, b, Some(npwp))
  {
    var first := Reimport(a, s.db.companies[a].(deleted := false));
    MayRevive(s, a);
    StepKeepsInv(Do(s, first), Issue(a, hash, now));
  }

  lemma {:induction false} MayRevive(s: State, a: Id)
    requires Inv(s) && s.open == map[] && IsMerged(s.db, a)
    requires TaxKey(s.db.companies[a].npwp).None? && TaxKey(s.db.companies[a].nib).None?
    ensures Enabled(s, Reimport(a, s.db.companies[a].(deleted := false)))
    ensures Inv(Do(s, Reimport(a, s.db.companies[a].(deleted := false))))
  {
    RevivalKeepsIndexes(s.db, a);
    StepKeepsInv(s, Reimport(a, s.db.companies[a].(deleted := false)));
  }

  lemma {:induction false} CommitMovesOneHop(db: Db, t: ClaimTx, user: Id, granted: set<string>)
    requires MayWrite(db, t.id, t.other, t.npwp) && t.other.Some?
    ensures
      var after := CommittedDb(db, t, user, granted);
      && Hop(after, t.other.value) == t.id
      && forall x :: x != t.other.value ==> Hop(after, x) == Hop(db, x)
  {
    forall x | x in db.companies
      ensures
        var after := CommittedDb(db, t, user, granted);
        Hop(after, x) == if x == t.other.value then t.id else Hop(db, x)
    {
      ClaimChangesRow(db, t.id, t.other, t.npwp, user, granted, x);
    }
    ClaimChangesRow(db, t.id, t.other, t.npwp, user, granted, t.id);
  }

  // A claim with nothing beside it folds in the holder of its number.
  lemma {:induction false} ClaimOf(s: State, a: Id, b: Id, hash: string, npwp: string, user: Id, granted: set<string>,
          now: int)
    returns (steps: seq<Step>)
    requires Inv(s) && s.open == map[] && user !in s.db.users && a != b
    requires LinkNames(s.db, a, hash) && !Expired(s.db, a, now) && ActiveOf(s.db, a) == {} && ActiveOf(s.db, b) == {}
    requires TaxKey(Some(npwp)).Some? && Holds(s.db, b, Some(npwp))
    ensures Runs(s, steps) && |steps| == 7
    ensures Hop(After(s, steps).db, b) == a && Hop(After(s, steps).db, a) == Hop(s.db, a)
  {
    MayHold(s, a, hash, npwp, now);
    var s1 := Do(s, Hold(0, a, hash, npwp, now));
    MayLookUp(s1, a, b, hash, npwp);
    var s2 := Do(s1, LookUp(0, Some(b)));
    OnlyHolder(s.db, a, b, npwp);
    steps := FinishAlone(s2, 0, user, granted);
    CommitMovesOneHop(s.db, Completed(s.db, s2.open[0]), user, granted);
    steps := Prepend(s1, LookUp(0, Some(b)), steps);
    steps := Prepend(s, Hold(0, a, hash, npwp, now), steps);
  }

  lemma {:induction false} MayHold(s: State, a: Id, hash: string, npwp: string, now: int)
    requires Inv(s) && s.open == map[]
    requires LinkNames(s.db, a, hash) && !Expired(s.db, a, now) && TaxKey(Some(npwp)).Some?
    ensures Enabled(s, Hold(0, a, hash, npwp, now)) && Inv(Do(s, Hold(0, a, hash, npwp, now)))
  {
    StepKeepsInv(s, Hold(0, a, hash, npwp, now));
  }

  lemma {:induction false} MayLookUp(s: State, a: Id, b: Id, hash: string, npwp: string)
    requires Inv(s) && s.open == map[0 := ClaimTx(a, hash, npwp, None, Held, map[], {})] && a != b
    requires ActiveOf(s.db, a) == {} && Holds(s.db, b, Some(npwp))
    ensures Enabled(s, LookUp(0, Some(b)))
    ensures Do(s, LookUp(0, Some(b))) == s.(open := map[0 := ClaimTx(a, hash, npwp, Some(b), Looked, map[], {})])
  {
  }

  // ---- When a pointer is final -------------------------------------------------------------------------

  // A claim commits over a duplicate that already points elsewhere.
  predicate Repoints(s: State, step: Step, id: Id) {
    && step.Commit? && step.tx in s.open && s.open[step.tx].other == Some(id)
    && id in s.db.companies && s.db.companies[id].mergedInto != Some(s.open[step.tx].id)
  }

  // Nothing clears a pointer, and exactly such a commit moves one.
  lemma {:induction false} StepMovesPointerIff(s: State, step: Step, id: Id)
    requires Inv(s) && IsMerged(s.db, id) && Enabled(s, step)
    ensures IsMerged(Do(s, step).db, id)
    ensures Do(s, step).db.companies[id].mergedInto != s.db.companies[id].mergedInto <==> Repoints(s, step, id)
  {
    StepChangesRow(s, step, id);
    if Folds(s, step).Some? {
      FoldsAreRows(s, step);
    }
  }

  ghost predicate NeverRepoints(s: State, steps: seq<Step>, id: Id)
    requires Runs(s, steps)
    decreases |steps|
  {
    steps == [] || (!Repoints(s, steps[0], id) && NeverRepoints(Do(s, steps[0]), steps[1..], id))
  }

  lemma {:induction false} StaysMerged(s: State, steps: seq<Step>, id: Id)
    requires Inv(s) && Runs(s, steps) && IsMerged(s.db, id)
    ensures IsMerged(After(s, steps).db, id)
    ensures NeverRepoints(s, steps, id) ==> After(s, steps).db.companies[id].mergedInto == s.db.companies[id].mergedInto
    decreases |steps|
  {
    if steps != [] {
      StepMovesPointerIff(s, steps[0], id);
      StepKeepsInv(s, steps[0]);
      StaysMerged(Do(s, steps[0]), steps[1..], id);
    }
  }

  ghost predicate FoldedLater(s: State, steps: seq<Step>, id: Id)
    requires Runs(s, steps)
    decreases |steps|
  {
    steps != [] && (FoldsAway(s, steps[0], id) || FoldedLater(Do(s, steps[0]), steps[1..], id))
  }

  lemma {:induction false} MergedIffFolded(s: State, steps: seq<Step>, id: Id)
    requires Inv(s) && Runs(s, steps) && id in s.db.companies && !IsMerged(s.db, id)
    ensures IsMerged(After(s, steps).db, id) <==> FoldedLater(s, steps, id)
    decreases |steps|
  {
    if steps != [] {
      StepChangesRow(s, steps[0], id);
      StepKeepsInv(s, steps[0]);
      if IsMerged(Do(s, steps[0]).db, id) {
        StaysMerged(Do(s, steps[0]), steps[1..], id);
      } else {
        MergedIffFolded(Do(s, steps[0]), steps[1..], id);
      }
    }
  }

  // A claim commits over a pointer exactly when its duplicate was a merged company made live again,
  // or some other transaction folded it away since the look-up.
  lemma {:induction false} CommitsOverAPointerIff(s: State, n: nat, duplicate: Id, steps: seq<Step>)
    requires Inv(s) && Enabled(s, LookUp(n, Some(duplicate)))
    requires Runs(Do(s, LookUp(n, Some(duplicate))), steps)
    ensures
      var found := Do(s, LookUp(n, Some(duplicate)));
      IsMerged(After(found, steps).db, duplicate) <==>
        IsMerged(s.db, duplicate) || FoldedLater(found, steps, duplicate)
  {
    StepKeepsInv(s, LookUp(n, Some(duplicate)));
    if IsMerged(s.db, duplicate) {
      StaysMerged(Do(s, LookUp(n, Some(duplicate))), steps, duplicate);
    } else {
      MergedIffFolded(Do(s, LookUp(n, Some(duplicate))), steps, duplicate);
    }
  }

  // One hop from a merged company reaches one that holds the records exactly when no later step
  // of the run folded the target away in its turn, as long as no claim moved the pointer.
  lemma {:induction false} OneHopIsEnoughIff(s: State, steps: seq<Step>, id: Id)
    requires Inv(s) && Runs(s, steps) && IsMerged(s.db, id) && !IsMerged(s.db, Hop(s.db, id))
    requires NeverRepoints(s, steps, id)
    ensures !IsMerged(After(s, steps).db, Hop(After(s, steps).db, id)) <==> !FoldedLater(s, steps, Hop(s.db, id))
  {
    StaysMerged(s, steps, id);
    MergedIffFolded(s, steps, Hop(s.db, id));
  }

  // Two accepted merges chain: nothing asks whether the duplicate is itself a survivor. Any
  // three live companies without people will do, and one hop from the first then stops short.
  lemma {:induction false} ChainsForm(db: Db, a: Id, b: Id, c: Id)
    requires IndexesHold(db) && MergedAreGone(db)
    requires Live(db, a) && Live(db, b) && Live(db, c) && a != b && b != c && a != c
    requires ActiveOf(db, a) == {} && ActiveOf(db, b) == {}
    ensures
      var after := Merged(Merged(db, b, a), c, b);
      Hop(after, a) == b && Hop(after, b) == c && !IsMerged(after, c)
  {
    assert !IsMerged(db, a) && !IsMerged(db, b) && !IsMerged(db, c);
    LiveDuplicateNeverRejected(db, b, a, 4);
    var once := MergeService.Trace(db, b, a)[4];
    MergeChangesRow(db, b, a, a);
    MergeChangesRow(db, b, a, b);
    MergeChangesRow(db, b, a, c);
    SecondMerge(db, once, a, b, c);
  }

  lemma {:induction false} SecondMerge(db: Db, once: Db, a: Id, b: Id, c: Id)
    requires IndexesHold(once) && Refusal(db, b, a).None? && once == MergeService.Trace(db, b, a)[4]
    requires Live(db, b) && Live(db, c) && a != c && b != c && !IsMerged(db, c)
    requires ActiveOf(db, a) == {} && ActiveOf(db, b) == {}
    ensures
      var after := Merged(once, c, b);
      Hop(after, a) == b && Hop(after, b) == c && !IsMerged(after, c)
  {
    assert ActiveOf(once, b) == {};
    assert Live(once, b) && Live(once, c);
    LiveDuplicateNeverRejected(once, c, b, 4);
    MergeChangesRow(once, c, b, a);
    MergeChangesRow(once, c, b, b);
    MergeChangesRow(once, c, b, c);
  }

  // ---- A merge inside a claim ---------------------------------------------------------------------------

  // The only claim under way has looked up this duplicate and not written yet.
  ghost predicate FoundOnly(s: State, n: nat, b: Id) {
    && n in s.open && s.open == map[n := s.open[n]] && s.open[n].other == Some(b)
    && !s.open[n].phase.Held? && !s.open[n].phase.Written? && IsDuplicate(s.db, b, s.open[n].id, s.open[n].npwp)
  }

  // The number is free for the claim after a merge of its duplicate exactly when the survivor has
  // some number of its own and so does not take the duplicate's.
  lemma {:induction false} MergedNumberFreeIff(db: Db, b: Id, c: Id, id: Id, npwp: string)
    requires IndexesHold(db) && Live(db, c) && IsDuplicate(db, b, id, npwp) && c != id && Refusal(db, c, b).None?
    requires TaxKey(Some(npwp)).Some?
    ensures NumberFree(MergeService.Trace(db, c, b)[4], id, Some(b), npwp) <==> db.companies[c].npwp.Some?
  {
    var after := MergeService.Trace(db, c, b)[4];
    MergeChangesRow(db, c, b, c);
    assert after.companies[c].npwp == Coalesce(db.companies[c].npwp, db.companies[b].npwp);
    forall o | o in db.companies && o != b && (o != c || db.companies[c].npwp.Some?)
      ensures !IsDuplicate(after, o, id, npwp)
    {
      MergeChangesRow(db, c, b, o);
      OnlyHolder(db, id, b, npwp);
    }
    assert db.companies[c].npwp.None? ==> IsDuplicate(after, c, id, npwp);
  }

  // In any state with a claim that has looked its duplicate up, that duplicate can still be merged
  // into any third live company, since nothing holds it but the links the claim has deleted.
  lemma {:induction false} MergeInsideClaim(s: State, n: nat, b: Id, c: Id)
    requires Inv(s) && FoundOnly(s, n, b) && ActiveOf(s.db, b) == {} && LinksFree(s, MergeKeys(s.db, c, b))
    requires Live(s.db, c) && c != b && c != s.open[n].id && !IsMerged(s.db, b) && !IsMerged(s.db, c)
    ensures Enabled(s, Merge(c, b)) && Hop(Do(s, Merge(c, b)).db, b) == c
    ensures Alone(Do(s, Merge(c, b)), n) <==> s.db.companies[c].npwp.Some?
    ensures s.open[n].phase.Cleared? ==> (Enabled(Do(s, Merge(c, b)), Write(n)) <==> s.db.companies[c].npwp.Some?)
  {
    MayMergeInside(s, n, b, c);
    if s.open[n].phase.Cleared? {
      WriteAloneIff(Do(s, Merge(c, b)), n);
    }
  }

  lemma {:induction false} WriteAloneIff(s: State, n: nat)
    requires n in s.open && s.open == map[n := s.open[n]] && s.open[n].phase.Cleared? && s.open[n].other.Some?
    requires s.open[n].other.value != s.open[n].id
    ensures Enabled(s, Write(n)) <==> NumberFree(s.db, s.open[n].id, s.open[n].other, s.open[n].npwp)
  {
  }

  lemma {:induction false} MayMergeInside(s: State, n: nat, b: Id, c: Id)
    requires Inv(s) && FoundOnly(s, n, b) && ActiveOf(s.db, b) == {} && LinksFree(s, MergeKeys(s.db, c, b))
    requires Live(s.db, c) && c != b && c != s.open[n].id && !IsMerged(s.db, b) && !IsMerged(s.db, c)
    ensures Enabled(s, Merge(c, b)) && Hop(Do(s, Merge(c, b)).db, b) == c
    ensures Alone(Do(s, Merge(c, b)), n) <==> s.db.companies[c].npwp.Some?
    ensures NumberFree(Do(s, Merge(c, b)).db, s.open[n].id, Some(b), s.open[n].npwp) <==> s.db.companies[c].npwp.Some?
  {
    var t := s.open[n];
    MergeAccepted(s.db, b, c);
    MergedNumberFreeIff(s.db, b, c, t.id, t.npwp);
    forall row | row != t.id ensures RowFree(s, row) {
    }
    MergeChangesRow(s.db, c, b, t.id);
    assert OwnLinks(s.db, t);
  }

  lemma {:induction false} MergeAccepted(db: Db, b: Id, c: Id)
    requires IndexesHold(db) && Live(db, b) && Live(db, c) && c != b && !IsMerged(db, b) && !IsMerged(db, c)
    requires ActiveOf(db, b) == {}
    ensures Refusal(db, c, b).None? && Merged(db, c, b) == MergeService.Trace(db, c, b)[4]
    ensures Hop(Merged(db, c, b), b) == c && ActiveOf(Merged(db, c, b), b) == {}
  {
    LiveDuplicateNeverRejected(db, c, b, 4);
    MergeChangesRow(db, c, b, b);
  }

  // With a number of its own at the survivor, the claim goes on and takes the pointer over; without
  // one the survivor has taken the claim's number and the index refuses it.
  lemma {:induction false} ClaimTakesThePointerOver(s: State, n: nat, b: Id, c: Id, user: Id, granted: set<string>)
    returns (steps: seq<Step>)
    requires Inv(s) && FoundOnly(s, n, b) && ActiveOf(s.db, b) == {} && user !in s.db.users
    requires LinksFree(s, MergeKeys(s.db, c, b))
    requires Live(s.db, c) && c != b && c != s.open[n].id && !IsMerged(s.db, b) && !IsMerged(s.db, c)
    requires s.db.companies[c].npwp.Some?
    ensures Runs(s, steps) && |steps| == 1 + PartsLeft(s.open[n]) && steps[0] == Merge(c, b)
    ensures Hop(Do(s, Merge(c, b)).db, b) == c && Hop(After(s, steps).db, b) == s.open[n].id
  {
    MergeInsideClaim(s, n, b, c);
    var s1 := Do(s, Merge(c, b));
    assert Merged(s.db, c, b).users.Keys == s.db.users.Keys;
    steps := FinishAlone(s1, n, user, granted);
    CommitMovesOneHop(s1.db, Completed(s1.db, s1.open[n]), user, granted);
    steps := Prepend(s, Merge(c, b), steps);
  }

  // No company folded away is claimed in a run that revives none.
  lemma {:induction false} NoFoldedCompanyIsClaimed(s: State, steps: seq<Step>, n: nat)
    requires Inv(s) && MergedAreGone(s.db) && Runs(s, steps) && NeverRevives(s, steps) && n in After(s, steps).open
    ensures !IsMerged(After(s, steps).db, After(s, steps).open[n].id)
  {
    RunKeepsInv(s, steps);
    NeverRevivedNeverHeld(s, steps);
  }
}
