// Seats at one company: concurrent registrations, each a transaction that locks the company
// row, counts, inserts and commits (internal/services/user_service.go).
module Seats {
  import opened Prelude
  import opened Companies

  // ---- One registration on its own --------------------------------------------------------------

  datatype RegisterError = SeatsTaken | RoleRequired | ForeignRole | IdentifierTaken | NoCompany

  // `role` names a role of some company; `free` says no live account holds the identifiers.
  datatype Registration = Registration(company: Option<Id>, role: Option<(Id, string)>, free: bool)

  function Joined(db: Db, user: Id, company: Option<Id>, role: Option<(Id, string)>): Db {
    db.(users := db.users[user := User(company, false, role)])
  }

  predicate SeatFree(db: Db, company: Id)
    requires company in db.companies
  {
    db.companies[company].maxUsers <= 0 || |ActiveOf(db, company)| < db.companies[company].maxUsers
  }

  predicate HasSeat(db: Db, reg: Registration) {
    reg.company.Some? ==> reg.company.value in db.companies && SeatFree(db, reg.company.value)
  }

  // The named role is one of the company's.
  predicate OwnRole(db: Db, reg: Registration)
    requires reg.company.Some? && reg.role.Some?
  {
    reg.role.value.0 == reg.company.value && reg.role.value in db.roles
  }

  lemma {:induction false} JoiningTakesASeat(db: Db, user: Id, company: Id, role: Option<(Id, string)>)
    requires user !in db.users
    ensures ActiveOf(Joined(db, user, Some(company), role), company) == ActiveOf(db, company) + {user}
    ensures |ActiveOf(Joined(db, user, Some(company), role), company)| == |ActiveOf(db, company)| + 1
  {
    var before, after := ActiveOf(db, company), ActiveOf(Joined(db, user, Some(company), role), company);
    forall u ensures u in after <==> u in before || u == user {
      assert u != user ==> (u in db.users <==> u in Joined(db, user, Some(company), role).users);
    }
    OneMore(before, after, user);
  }

  lemma {:induction false} OneMore(before: set<Id>, after: set<Id>, user: Id)
    requires user !in before && forall u :: u in after <==> u in before || u == user
    ensures after == before + {user} && |after| == |before| + 1
  {
  }

  class Registrar {
    const database: Database

    constructor (database: Database)
      ensures this.database == database
    {
      this.database := database;
    }

    method CheckSeat(company: Id) returns (e: Option<RegisterError>)
      ensures e == Some(NoCompany) <==> company !in database.db.companies
      ensures e == Some(SeatsTaken) <==> company in database.db.companies && !SeatFree(database.db, company)
      ensures e.None? <==> company in database.db.companies && SeatFree(database.db, company)
      ensures e == Some(SeatsTaken) <==>
        && company in database.db.companies && database.db.companies[company].maxUsers > 0
        && |set u | u in database.db.users && database.db.users[u].company == Some(company)
             && !database.db.users[u].deleted| >= database.db.companies[company].maxUsers
    {
      if company !in database.db.companies {
        return Some(NoCompany);
      }
      var limit := database.db.companies[company].maxUsers;
      if limit > 0 {
        var used := |ActiveOf(database.db, company)|;
        if used >= limit {
          return Some(SeatsTaken);
        }
      }
      return None;
    }

    // Adds a member to an existing company, or an account to none: every refusal, wherever it
    // comes, leaves no row behind.
    method Join(reg: Registration, user: Id) returns (r: Result<Id, RegisterError>)
      requires user !in database.db.users
      modifies database
      ensures r.Err? ==> database.db == old(database.db)
      // One reason each, in the order they are looked at.
      ensures r == Err(NoCompany) <==> reg.company.Some? && reg.company.value !in old(database.db).companies
      ensures r == Err(SeatsTaken) <==>
        reg.company.Some? && reg.company.value in old(database.db).companies
          && !SeatFree(old(database.db), reg.company.value)
      ensures r == Err(IdentifierTaken) <==> HasSeat(old(database.db), reg) && !reg.free
      ensures r == Err(RoleRequired) <==>
        HasSeat(old(database.db), reg) && reg.free && reg.company.Some? && reg.role.None?
      ensures r == Err(ForeignRole) <==>
        HasSeat(old(database.db), reg) && reg.free && reg.company.Some? && reg.role.Some?
          && !OwnRole(old(database.db), reg)
      ensures r.Ok? <==>
        && HasSeat(old(database.db), reg) && reg.free
        && (reg.company.Some? ==> reg.role.Some? && OwnRole(old(database.db), reg))
      // The one new row is an active account of that company with that role; nothing else changes.
      ensures r.Ok? ==>
        && r.value == user
        && database.db == old(database.db).(users := old(database.db).users[user :=
             User(reg.company, false, if reg.company.Some? then reg.role else None)])
      ensures r.Ok? && reg.company.None? ==> database.db == Joined(old(database.db), user, None, None)
      ensures r.Ok? && reg.company.Some? ==>
        && reg.company.value in old(database.db).companies
        && database.db == Joined(old(database.db), user, reg.company, reg.role)
        && ActiveOf(database.db, reg.company.value) == ActiveOf(old(database.db), reg.company.value) + {user}
        && (old(database.db).companies[reg.company.value].maxUsers > 0 ==>
              |ActiveOf(database.db, reg.company.value)| <= old(database.db).companies[reg.company.value].maxUsers)
    {
      var tx := database.db;
      if reg.company.Some? {
        var refused := CheckSeat(reg.company.value);
        if refused.Some? {
          return Err(refused.value);
        }
      }
      if !reg.free {
        return Err(IdentifierTaken);
      }
      tx := Joined(tx, user, reg.company, None);
      if reg.company.Some? {
        if reg.role.None? {
          return Err(RoleRequired);
        }
        if reg.role.value.0 != reg.company.value || reg.role.value !in tx.roles {
          return Err(ForeignRole);
        }
        tx := tx.(users := tx.users[user := tx.users[user].(role := reg.role)]);
        JoiningTakesASeat(database.db, user, reg.company.value, reg.role);
      }
      database.db := tx;
      return Ok(user);
    }
  }

  // ---- Many at once ---------------------------------------------------------------------------------

  // A transaction waits for the row, holds it, has counted under it, or has inserted under it.
  datatype Phase = Waiting | Locked | Counted | Inserted(user: Id)

  datatype State = State(limit: int, active: set<Id>, known: set<Id>, open: map<nat, Phase>, holder: Option<nat>)

  datatype Step =
    | Begin(tx: nat)
    | Lock(tx: nat)
    | Count(tx: nat)
    | Insert(tx: nat, user: Id)
    | Commit(tx: nat)
    | Abort(tx: nat)
    | Remove(user: Id)

  // With `locking`, a transaction waits for the row while another holds it, as it does in the service.
  predicate Enabled(locking: bool, s: State, step: Step) {
    match step
    case Begin(t) => t !in s.open
    case Lock(t) => t in s.open && s.open[t].Waiting? && (locking ==> s.holder.None?)
    case Count(t) => t in s.open && s.open[t].Locked? && !(s.limit > 0 && |s.active| >= s.limit)
    case Insert(t, u) => t in s.open && s.open[t].Counted? && u !in s.known
    case Commit(t) => t in s.open && s.open[t].Inserted?
    case Abort(t) => t in s.open
    case Remove(u) => u in s.active
  }

  function Do(s: State, step: Step): State
    requires Enabled(false, s, step)
  {
    match step
    case Begin(t) => s.(open := s.open[t := Waiting])
    case Lock(t) => s.(open := s.open[t := Locked], holder := Some(t))
    case Count(t) => s.(open := s.open[t := Counted])
    case Insert(t, u) => s.(open := s.open[t := Inserted(u)], known := s.known + {u})
    case Commit(t) => s.(active := s.active + {s.open[t].user}, open := s.open - {t}, holder := None)
    case Abort(t) => s.(open := s.open - {t}, holder := if s.holder == Some(t) then None else s.holder)
    case Remove(u) => s.(active := s.active - {u})
  }

  predicate Runs(locking: bool, s: State, steps: seq<Step>)
    decreases |steps|
  {
    steps == [] || (Enabled(locking, s, steps[0]) && Runs(locking, Do(s, steps[0]), steps[1..]))
  }

  lemma {:induction false} LockedRunsAreRuns(s: State, steps: seq<Step>)
    requires Runs(true, s, steps)
    ensures Runs(false, s, steps)
    decreases |steps|
  {
    if steps != [] {
      LockedRunsAreRuns(Do(s, steps[0]), steps[1..]);
    }
  }

  function After(s: State, steps: seq<Step>): State
    requires Runs(false, s, steps)
    decreases |steps|
  {
    if steps == [] then s else After(Do(s, steps[0]), steps[1..])
  }

  // Only the holder is past waiting, what it inserted is nobody's yet, and it has left itself room.
  ghost predicate Inv(s: State) {
    && (forall t :: t in s.open ==> (!s.open[t].Waiting? <==> s.holder == Some(t)))
    && (s.holder.Some? ==> s.holder.value in s.open)
    && s.active <= s.known
    && (forall t :: t in s.open && s.open[t].Inserted? ==> s.open[t].user in s.known && s.open[t].user !in s.active)
    && (s.limit > 0 ==> |s.active| <= s.limit)
    && (s.limit > 0 ==> forall t :: t in s.open && (s.open[t].Counted? || s.open[t].Inserted?) ==> |s.active| < s.limit)
  }

  lemma StepKeepsInv(s: State, step: Step)
    requires Inv(s) && Enabled(true, s, step)
    ensures Inv(Do(s, step))
  {
  }

  // However registrations interleave, a positive limit respected at the start is respected ever after.
  lemma {:induction false} SeatsNeverExceeded(s: State, steps: seq<Step>)
    requires Inv(s) && Runs(true, s, steps)
    ensures Runs(false, s, steps)
    ensures s.limit > 0 ==> |After(s, steps).active| <= s.limit
    ensures Inv(After(s, steps)) && After(s, steps).limit == s.limit
    decreases |steps|
  {
    LockedRunsAreRuns(s, steps);
    if steps != [] {
      StepKeepsInv(s, steps[0]);
      SeatsNeverExceeded(Do(s, steps[0]), steps[1..]);
    }
  }

  // With nobody holding the row and a seat left, a registration goes through and takes it; and a
  // member who leaves gives theirs back.
  lemma {:induction false} ASeatIsTakenAndGivenBack(s: State, t: nat, u: Id)
    requires s.holder.None? && t !in s.open && u !in s.known && u !in s.active && (s.limit > 0 ==> |s.active| < s.limit)
    ensures Runs(true, s, [Begin(t), Lock(t), Count(t), Insert(t, u), Commit(t), Remove(u)])
    ensures
      var inserted := Do(Do(Do(Do(s, Begin(t)), Lock(t)), Count(t)), Insert(t, u));
      && Do(inserted, Commit(t)).active == s.active + {u} && Do(inserted, Commit(t)).holder.None?
      && Do(inserted, Abort(t)).active == s.active && Do(inserted, Abort(t)).holder.None?
      && Do(Do(inserted, Commit(t)), Remove(u)).active == s.active
  {
    var s3 := Do(Do(Do(s, Begin(t)), Lock(t)), Count(t));
    var last := [Insert(t, u), Commit(t), Remove(u)];
    SeatTaken(s3, t, u);
    assert ([Count(t)] + last)[1..] == last && ([Lock(t), Count(t)] + last)[1..] == [Count(t)] + last;
    assert ([Begin(t), Lock(t), Count(t)] + last)[1..] == [Lock(t), Count(t)] + last;
    assert [Begin(t), Lock(t), Count(t)] + last == [Begin(t), Lock(t), Count(t), Insert(t, u), Commit(t), Remove(u)];
  }

  lemma {:induction false} SeatTaken(s: State, t: nat, u: Id)
    requires t in s.open && s.open[t].Counted? && u !in s.known && u !in s.active
    ensures Runs(true, s, [Insert(t, u), Commit(t), Remove(u)])
    ensures Do(Do(Do(s, Insert(t, u)), Commit(t)), Remove(u)).active == s.active
  {
    var s1 := Do(s, Insert(t, u));
    var s2 := Do(s1, Commit(t));
    assert Runs(true, s2, [Remove(u)]);
    assert Runs(true, s1, [Commit(t), Remove(u)]) by {
      assert [Commit(t), Remove(u)][1..] == [Remove(u)];
    }
    assert [Insert(t, u), Commit(t), Remove(u)][1..] == [Commit(t), Remove(u)];
  }

  // Without the lock, whatever the state: with one seat left, two registrations that both count
  // before either commits overfill the company.
  lemma {:induction false} CountingUnlockedOverfills(s: State, t: nat, u: nat, a: Id, b: Id) returns (steps: seq<Step>)
    requires s.limit > 0 && |s.active| == s.limit - 1 && s.active <= s.known
    requires t != u && t !in s.open && u !in s.open && a != b && a !in s.known && b !in s.known
    ensures Runs(false, s, steps) && |After(s, steps).active| == s.limit + 1
  {
    var s1 := BothCounted(s, t, u);
    var s2 := Do(s1, Insert(t, a));
    var s3 := Do(s2, Insert(u, b));
    var s4 := Do(s3, Commit(t));
    var s5 := Do(s4, Commit(u));
    assert s5.active == s.active + {a} + {b};
    steps := Prepend(s4, Commit(u), []);
    steps := Prepend(s3, Commit(t), steps);
    steps := Prepend(s2, Insert(u, b), steps);
    steps := Prepend(s1, Insert(t, a), steps);
    steps := BothCount(s, t, u, steps);
  }

  // Both transactions have counted.
  function BothCounted(s: State, t: nat, u: nat): State {
    s.(open := s.open[t := Counted][u := Counted], holder := Some(u))
  }

  lemma {:induction false} BothCount(s: State, t: nat, u: nat, rest: seq<Step>) returns (steps: seq<Step>)
    requires s.limit > 0 && |s.active| < s.limit && t != u && t !in s.open && u !in s.open
    requires Runs(false, BothCounted(s, t, u), rest)
    ensures Runs(false, s, steps) && After(s, steps) == After(BothCounted(s, t, u), rest)
  {
    var s1 := Do(s, Begin(t));
    var s2 := Do(s1, Begin(u));
    var s3 := Do(s2, Lock(t));
    var s4 := Do(s3, Lock(u));
    var s5 := Do(s4, Count(t));
    assert Do(s5, Count(u)) == BothCounted(s, t, u);
    steps := Prepend(s5, Count(u), rest);
    steps := Prepend(s4, Count(t), steps);
    steps := Prepend(s3, Lock(u), steps);
    steps := Prepend(s2, Lock(t), steps);
    steps := Prepend(s1, Begin(u), steps);
    steps := Prepend(s, Begin(t), steps);
  }

  lemma {:induction false} Prepend(s: State, step: Step, rest: seq<Step>) returns (steps: seq<Step>)
    requires Enabled(false, s, step) && Runs(false, Do(s, step), rest)
    ensures Runs(false, s, steps) && After(s, steps) == After(Do(s, step), rest)
  {
    steps := [step] + rest;
    assert steps[1..] == rest;
  }
}
