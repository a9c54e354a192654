// Logins, evictions, refreshes, revocations and housekeeping, interleaved in any order.
//
// A login creates its session in one step and ends its rivals in another; anything may fall
// between. A refresh is a read, a revocation and a creation outside any transaction: it is
// given both as one atomic step and as its three parts.
module SessionProtocol {
  import opened Prelude
  import opened Sessions

  // A refresh that has read its session, and later also revoked it.
  datatype Flight = Flight(id: string, row: Row, revoked: bool)

  datatype State = State(
    clock: int,
    rows: Table,
    finished: set<string>,   // token ids whose login has finished evicting, and what they were rotated into
    usedIds: set<string>,
    usedHashes: set<string>,
    flights: map<nat, Flight>,
    won: seq<string>)        // the refresh hashes exchanged so far

  datatype Step =
    | Tick(elapsed: nat)
    | Create(id: string, row: Row)
    | Evict(id: string)
    | Refresh(id: string, newId: string, newHash: string)
    | ReadForRefresh(request: nat, id: string)
    | RevokeForRefresh(request: nat)
    | CreateForRefresh(request: nat, newId: string, newHash: string)
    | Revoke(id: string)
    | RevokeAll(user: string)
    | DeleteExpired(cutoff: int)
    | DeleteDead(cutoff: int)

  const LIFE: int := 2_592_000_000_000_000 // thirty days

  const INITIAL := State(0, map[], {}, {}, {}, map[], [])

  predicate Unused(s: State, id: string, hash: string) {
    id !in s.usedIds && hash !in s.usedHashes
  }

  predicate Enabled(s: State, step: Step) {
    match step
    case Tick(_) => true
    case Create(id, row) => Unused(s, id, row.refresh) && row.revoked.None?
    case Evict(id) => id in s.rows && s.rows[id].single
    case Refresh(id, newId, newHash) => id in s.rows && IsActive(s.rows[id], s.clock) && Unused(s, newId, newHash)
    case ReadForRefresh(n, id) => n !in s.flights && id in s.rows && IsActive(s.rows[id], s.clock)
    case RevokeForRefresh(n) => n in s.flights && !s.flights[n].revoked
    case CreateForRefresh(n, newId, newHash) => n in s.flights && s.flights[n].revoked && Unused(s, newId, newHash)
    case Revoke(_) => true
    case RevokeAll(_) => true
    case DeleteExpired(cutoff) => cutoff <= s.clock
    case DeleteDead(cutoff) => cutoff <= s.clock
  }

  function Inherited(finished: set<string>, from: string, to: string): set<string> {
    if from in finished then finished + {to} else finished
  }

  function Do(s: State, step: Step): State
    requires Enabled(s, step)
  {
    match step
    case Tick(elapsed) => s.(clock := s.clock + elapsed)
    case Create(id, row) =>
      s.(rows := s.rows[id := row], usedIds := s.usedIds + {id}, usedHashes := s.usedHashes + {row.refresh})
    case Evict(id) =>
      s.(rows := Ended(s.rows, Rivals(s.rows, s.rows[id].user, id), s.clock), finished := s.finished + {id})
    case Refresh(id, newId, newHash) =>
      s.(rows := Rotated(s.rows, id, newId, newHash, s.clock, LIFE), finished := Inherited(s.finished, id, newId),
         usedIds := s.usedIds + {newId}, usedHashes := s.usedHashes + {newHash}, won := s.won + [s.rows[id].refresh])
    case ReadForRefresh(n, id) => s.(flights := s.flights[n := Flight(id, s.rows[id], false)])
    case RevokeForRefresh(n) =>
      s.(rows := Ended(s.rows, {s.flights[n].id}, s.clock), flights := s.flights[n := s.flights[n].(revoked := true)])
    case CreateForRefresh(n, newId, newHash) =>
      var f := s.flights[n];
      s.(rows := s.rows[newId := Row(f.row.user, newHash, f.row.single, s.clock + LIFE, None)],
         finished := Inherited(s.finished, f.id, newId), flights := s.flights - {n},
         usedIds := s.usedIds + {newId}, usedHashes := s.usedHashes + {newHash}, won := s.won + [f.row.refresh])
    case Revoke(id) => s.(rows := Ended(s.rows, {id}, s.clock))
    case RevokeAll(user) => s.(rows := Ended(s.rows, OpenOf(s.rows, user), s.clock))
    case DeleteExpired(cutoff) => s.(rows := Unexpired(s.rows, cutoff))
    case DeleteDead(cutoff) => s.(rows := Undead(s.rows, cutoff))
  }

  // The state after as many steps as are enabled one after the other.
  predicate Runs(s: State, steps: seq<Step>)
    decreases |steps|
  {
    steps == [] || (Enabled(s, steps[0]) && Runs(Do(s, steps[0]), steps[1..]))
  }

  function After(s: State, steps: seq<Step>): State
    requires Runs(s, steps)
    decreases |steps|
  {
    if steps == [] then s else After(Do(s, steps[0]), steps[1..])
  }

  // ---- Invariants -------------------------------------------------------------------------

  ghost predicate Known(s: State) {
    && s.finished <= s.usedIds
    && (forall id :: id in s.rows ==> id in s.usedIds && s.rows[id].refresh in s.usedHashes)
    && (forall a, b :: a in s.rows && b in s.rows && s.rows[a].refresh == s.rows[b].refresh ==> a == b)
    && (forall n :: n in s.flights ==> s.flights[n].id in s.usedIds && s.flights[n].row.refresh in s.usedHashes)
    && (forall i :: 0 <= i < |s.won| ==> s.won[i] in s.usedHashes)
  }

  ghost predicate OpenRival(s: State, id: string, user: string) {
    id in s.rows && id in s.finished && s.rows[id].single && s.rows[id].user == user && s.rows[id].revoked.None?
  }

  // At most one open one-device session of the person has finished its eviction.
  ghost predicate OneFinished(s: State, user: string) {
    forall a, b :: OpenRival(s, a, user) && OpenRival(s, b, user) ==> a == b
  }

  ghost predicate WonTwice(s: State, hash: string) {
    exists i, j :: 0 <= i < j < |s.won| && s.won[i] == hash && s.won[j] == hash
  }

  // A token carried by at most one refresh, exchanged at most once, and then carried by none and
  // opening nothing.
  ghost predicate Spent(s: State, hash: string) {
    && !WonTwice(s, hash)
    && (forall m, n :: Carries(s, m, hash) && Carries(s, n, hash) ==> m == n)
    && (hash in s.won ==> forall n :: !Carries(s, n, hash))
    && (hash in s.won ==> forall id :: id in s.rows && s.rows[id].refresh == hash ==> s.rows[id].revoked.Some?)
  }

  predicate Carries(s: State, n: nat, hash: string) {
    n in s.flights && s.flights[n].row.refresh == hash
  }

  // What a refresh under way has read is what the table says, and its token is not exchanged yet.
  ghost predicate FlightsTrue(s: State) {
    forall n :: n in s.flights ==> FlightTrue(s, s.flights[n])
  }

  ghost predicate FlightTrue(s: State, f: Flight) {
    && (f.id in s.rows ==> SameSession(s.rows[f.id], f.row))
    && (forall id :: id in s.rows && s.rows[id].refresh == f.row.refresh ==> id == f.id)
    && (f.revoked ==> Over(s, f.id))
  }

  predicate SameSession(a: Row, b: Row) {
    a.user == b.user && a.refresh == b.refresh && a.single == b.single
  }

  // A refresh reads a session another refresh has already read: the token at stake is that session's.
  ghost predicate Contends(s: State, step: Step, hash: string) {
    && (step.ReadForRefresh? || step.Refresh?) && InFlight(s, step.id)
    && step.id in s.rows && s.rows[step.id].refresh == hash
  }

  ghost predicate InFlight(s: State, id: string) {
    exists n :: n in s.flights && s.flights[n].id == id
  }

  // A refresh under way of a one-device session of the person, and of one that has finished evicting.
  predicate SingleFlight(s: State, n: nat, user: string) {
    n in s.flights && s.flights[n].row.single && s.flights[n].row.user == user
  }

  predicate FinishedFlight(s: State, n: nat, user: string) {
    SingleFlight(s, n, user) && s.flights[n].id in s.finished
  }

  // A one-device session of the person is read by a second refresh; a whole refresh inside another
  // matters only once the session has finished evicting.
  ghost predicate ContendsSingle(s: State, step: Step, user: string) {
    && (step.ReadForRefresh? || (step.Refresh? && step.id in s.finished)) && InFlight(s, step.id)
    && step.id in s.rows && s.rows[step.id].single && s.rows[step.id].user == user
  }

  // A login of the person evicts while another finished session of theirs is being refreshed, and
  // can itself still leave an open one: the refresh will create a session the eviction never saw.
  ghost predicate Crosses(s: State, step: Step, user: string) {
    && step.Evict? && step.id in s.rows && s.rows[step.id].user == user
    && (s.rows[step.id].revoked.None? || InFlight(s, step.id))
    && exists n :: FinishedFlight(s, n, user) && s.flights[n].id != step.id
  }

  ghost predicate Doubles(s: State, step: Step, user: string) {
    ContendsSingle(s, step, user) || Crosses(s, step, user)
  }

  // At most one open one-device session of the person has finished evicting, counting those that
  // refreshes under way have yet to create.
  ghost predicate OneLineage(s: State, user: string) {
    && OneFinished(s, user)
    && (forall n, a :: FinishedFlight(s, n, user) && OpenRival(s, a, user) ==> a == s.flights[n].id)
    && (forall m, n :: FinishedFlight(s, m, user) && FinishedFlight(s, n, user) ==> m == n)
  }

  // No two refreshes under way carry one one-device session of the person.
  ghost predicate SinglesApart(s: State, user: string) {
    forall m, n :: SingleFlight(s, m, user) && SingleFlight(s, n, user) && s.flights[m].id == s.flights[n].id ==> m == n
  }

  // A token id was issued and its session is revoked or deleted.
  predicate Over(s: State, id: string) {
    id in s.usedIds && (id !in s.rows || s.rows[id].revoked.Some?)
  }

  lemma StepKeepsKnown(s: State, step: Step)
    requires Known(s) && Enabled(s, step)
    ensures Known(Do(s, step))
  {
    if step.Refresh? {
      RefreshKeepsKnown(s, step);
    } else if step.CreateForRefresh? {
      CreateForRefreshKeepsKnown(s, step);
    }
  }

  lemma RefreshKeepsKnown(s: State, step: Step)
    requires Known(s) && Enabled(s, step) && step.Refresh?
    ensures Known(Do(s, step))
  {
  }

  lemma CreateForRefreshKeepsKnown(s: State, step: Step)
    requires Known(s) && Enabled(s, step) && step.CreateForRefresh?
    ensures Known(Do(s, step))
  {
  }

  lemma StepKeepsOver(s: State, step: Step, id: string)
    requires Known(s) && Enabled(s, step) && Over(s, id)
    ensures Over(Do(s, step), id)
  {
  }

  lemma {:induction false} StepKeepsFlightsTrue(s: State, step: Step)
    requires Known(s) && FlightsTrue(s) && Enabled(s, step)
    ensures FlightsTrue(Do(s, step))
  {
    var s' := Do(s, step);
    forall n | n in s'.flights && n in s.flights ensures FlightTrue(s', s'.flights[n]) {
      StepKeepsFlightTrue(s, step, n);
    }
  }

  lemma {:induction false} StepKeepsFlightTrue(s: State, step: Step, n: nat)
    requires Known(s) && n in s.flights && FlightTrue(s, s.flights[n]) && Enabled(s, step) && n in Do(s, step).flights
    ensures FlightTrue(Do(s, step), Do(s, step).flights[n])
  {
    if s.flights[n].revoked {
      StepKeepsOver(s, step, s.flights[n].id);
    }
  }

  // Every step but a contended one on that very session keeps its token spent, refreshes in parts
  // included.
  lemma {:induction false} StepKeepsSpent(s: State, step: Step, hash: string)
    requires Known(s) && FlightsTrue(s) && Spent(s, hash) && Enabled(s, step) && !Contends(s, step, hash)
    ensures Spent(Do(s, step), hash)
  {
    if step.Refresh? || step.CreateForRefresh? {
      ExchangeKeepsSpent(s, step, hash);
    } else {
      forall n | Carries(Do(s, step), n, hash)
        ensures Carries(s, n, hash)
             || (step.ReadForRefresh? && n == step.request && s.rows[step.id].refresh == hash)
      {
      }
      if step.ReadForRefresh? && s.rows[step.id].refresh == hash {
        CarriersRead(s, step.id, hash);
      }
    }
  }

  // Whatever carries the token of a session has read that session.
  lemma {:induction false} CarriersRead(s: State, id: string, hash: string)
    requires FlightsTrue(s) && id in s.rows && s.rows[id].refresh == hash
    ensures forall n :: Carries(s, n, hash) ==> InFlight(s, id)
  {
    forall n | Carries(s, n, hash) ensures InFlight(s, id) {
      assert FlightTrue(s, s.flights[n]);
    }
  }

  lemma {:induction false} ExchangeKeepsSpent(s: State, step: Step, hash: string)
    requires Known(s) && FlightsTrue(s) && Spent(s, hash) && Enabled(s, step) && !Contends(s, step, hash)
    requires step.Refresh? || step.CreateForRefresh?
    ensures Spent(Do(s, step), hash)
  {
    var won := if step.Refresh? then s.rows[step.id].refresh else s.flights[step.request].row.refresh;
    assert Do(s, step).won == s.won + [won];
    forall n | Carries(Do(s, step), n, hash)
      ensures Carries(s, n, hash) && (step.CreateForRefresh? ==> n != step.request)
    {
    }
    if won == hash {
      if step.Refresh? {
        CarriersRead(s, step.id, hash);
      } else {
        assert Carries(s, step.request, hash);
      }
      assert hash !in s.won;
    }
  }

  lemma {:induction false} StepKeepsSinglesApart(s: State, step: Step, user: string)
    requires FlightsTrue(s) && SinglesApart(s, user) && Enabled(s, step) && !ContendsSingle(s, step, user)
    ensures SinglesApart(Do(s, step), user)
  {
    var s' := Do(s, step);
    forall n | SingleFlight(s', n, user)
      ensures if step.ReadForRefresh? && n == step.request then !InFlight(s, step.id)
              else SingleFlight(s, n, user) && s'.flights[n].id == s.flights[n].id
    {
    }
  }

  // And every step that does not double keeps one lineage of the person.
  lemma {:induction false} StepKeepsOneLineage(s: State, step: Step, user: string)
    requires Known(s) && FlightsTrue(s) && SinglesApart(s, user) && OneLineage(s, user) && Enabled(s, step)
    requires !Doubles(s, step, user)
    ensures OneLineage(Do(s, step), user) && SinglesApart(Do(s, step), user)
  {
    StepKeepsSinglesApart(s, step, user);
    if step.Evict? {
      EvictKeepsOneLineage(s, step, user);
    } else if step.Refresh? {
      RefreshKeepsOneLineage(s, step, user);
    } else if step.CreateForRefresh? {
      CreateForRefreshKeepsOneLineage(s, step, user);
    } else {
      OthersKeepOneLineage(s, step, user);
    }
  }

  lemma {:induction false} EvictKeepsOneLineage(s: State, step: Step, user: string)
    requires Known(s) && FlightsTrue(s) && SinglesApart(s, user) && OneLineage(s, user) && Enabled(s, step)
    requires step.Evict? && !Crosses(s, step, user)
    ensures OneLineage(Do(s, step), user)
  {
    var s' := Do(s, step);
    forall a | OpenRival(s', a, user)
      ensures if s.rows[step.id].user == user then a == step.id else OpenRival(s, a, user)
    {
    }
    forall n | FinishedFlight(s', n, user)
      ensures FinishedFlight(s, n, user) || (s.flights[n].id == step.id && s.rows[step.id].user == user)
    {
      assert FlightTrue(s, s.flights[n]);
    }
  }

  lemma {:induction false} RefreshKeepsOneLineage(s: State, step: Step, user: string)
    requires Known(s) && FlightsTrue(s) && OneLineage(s, user) && Enabled(s, step)
    requires step.Refresh? && !ContendsSingle(s, step, user)
    ensures OneLineage(Do(s, step), user)
  {
    var s' := Do(s, step);
    forall a | OpenRival(s', a, user)
      ensures a != step.id && (if a == step.newId then OpenRival(s, step.id, user) else OpenRival(s, a, user))
    {
    }
    forall n | FinishedFlight(s', n, user) ensures FinishedFlight(s, n, user) {
      assert s.flights[n].id in s.usedIds;
    }
  }

  lemma {:induction false} CreateForRefreshKeepsOneLineage(s: State, step: Step, user: string)
    requires Known(s) && FlightsTrue(s) && OneLineage(s, user) && Enabled(s, step)
    requires step.CreateForRefresh?
    ensures OneLineage(Do(s, step), user)
  {
    var s' := Do(s, step);
    forall a | OpenRival(s', a, user)
      ensures if a == step.newId then FinishedFlight(s, step.request, user) else OpenRival(s, a, user)
    {
    }
    forall n | FinishedFlight(s', n, user) ensures n != step.request && FinishedFlight(s, n, user) {
      assert s.flights[n].id in s.usedIds;
    }
  }

  lemma {:induction false} OthersKeepOneLineage(s: State, step: Step, user: string)
    requires Known(s) && FlightsTrue(s) && OneLineage(s, user) && Enabled(s, step)
    requires !step.Evict? && !step.Refresh? && !step.CreateForRefresh? && !ContendsSingle(s, step, user)
    ensures OneLineage(Do(s, step), user)
  {
    var s' := Do(s, step);
    forall a | OpenRival(s', a, user) ensures OpenRival(s, a, user) {
      assert step.Create? ==> step.id !in s.finished;
    }
    forall n | FinishedFlight(s', n, user)
      ensures FinishedFlight(s, n, user) || (step.ReadForRefresh? && n == step.request && OpenRival(s, step.id, user))
    {
      assert n in s.flights ==> s'.flights[n].id == s.flights[n].id;
    }
  }

  // ---- Runs ---------------------------------------------------------------------------------

  lemma {:induction false} RunKeepsKnown(s: State, steps: seq<Step>)
    requires Known(s) && Runs(s, steps)
    ensures Known(After(s, steps))
    decreases |steps|
  {
    if steps != [] {
      StepKeepsKnown(s, steps[0]);
      RunKeepsKnown(Do(s, steps[0]), steps[1..]);
    }
  }

  // Revocation is permanent, whatever interleaves, refreshes in parts included.
  lemma {:induction false} RevocationIsPermanent(s: State, steps: seq<Step>, id: string)
    requires Known(s) && Runs(s, steps) && Over(s, id)
    ensures Over(After(s, steps), id)
    decreases |steps|
  {
    if steps != [] {
      StepKeepsKnown(s, steps[0]);
      StepKeepsOver(s, steps[0], id);
      RevocationIsPermanent(Do(s, steps[0]), steps[1..], id);
    }
  }

  // No two refreshes of the session with this token overlap.
  ghost predicate Uncontended(s: State, steps: seq<Step>, hash: string)
    requires Runs(s, steps)
    decreases |steps|
  {
    steps == [] || (!Contends(s, steps[0], hash) && Uncontended(Do(s, steps[0]), steps[1..], hash))
  }

  ghost predicate NeverDoubles(s: State, steps: seq<Step>, user: string)
    requires Runs(s, steps)
    decreases |steps|
  {
    steps == [] || (!Doubles(s, steps[0], user) && NeverDoubles(Do(s, steps[0]), steps[1..], user))
  }

  // As long as its session is not read by two refreshes at once, whatever becomes of other
  // sessions, an exchanged token stays spent.
  lemma {:induction false} RunKeepsSpent(s: State, steps: seq<Step>, hash: string)
    requires Known(s) && FlightsTrue(s) && Spent(s, hash) && Runs(s, steps) && Uncontended(s, steps, hash)
    ensures Spent(After(s, steps), hash)
    decreases |steps|
  {
    if steps != [] {
      StepKeepsKnown(s, steps[0]);
      StepKeepsFlightsTrue(s, steps[0]);
      StepKeepsSpent(s, steps[0], hash);
      RunKeepsSpent(Do(s, steps[0]), steps[1..], hash);
    }
  }

  // At most one open one-device session of a person has finished evicting in every run without a
  // doubling step for that person, whatever anybody else does.
  lemma {:induction false} AtMostOneFinishedSession(s: State, steps: seq<Step>, user: string)
    requires Known(s) && FlightsTrue(s) && SinglesApart(s, user) && OneLineage(s, user)
    requires Runs(s, steps) && NeverDoubles(s, steps, user)
    ensures OneFinished(After(s, steps), user)
    ensures SinglesApart(After(s, steps), user) && OneLineage(After(s, steps), user)
    decreases |steps|
  {
    if steps != [] {
      StepKeepsKnown(s, steps[0]);
      StepKeepsFlightsTrue(s, steps[0]);
      StepKeepsOneLineage(s, steps[0], user);
      AtMostOneFinishedSession(Do(s, steps[0]), steps[1..], user);
    }
  }

  lemma {:induction false} FromTheFirstLogin(steps: seq<Step>, user: string)
    requires Runs(INITIAL, steps) && NeverDoubles(INITIAL, steps, user)
    ensures OneFinished(After(INITIAL, steps), user)
  {
    AtMostOneFinishedSession(INITIAL, steps, user);
  }

  // From the first login on: a refresh token is exchanged at most once in any run in which no two
  // refreshes of its session overlap.
  lemma {:induction false} EachRefreshTokenWinsOnce(steps: seq<Step>, hash: string)
    requires Runs(INITIAL, steps) && Uncontended(INITIAL, steps, hash)
    ensures !WonTwice(After(INITIAL, steps), hash)
  {
    RunKeepsSpent(INITIAL, steps, hash);
  }

  // A refresh that reads after another has revoked loses, whatever interleaves.
  lemma LateRefreshLoses(s: State, n: nat, steps: seq<Step>)
    requires Known(s) && Enabled(s, RevokeForRefresh(n))
    requires Runs(Do(s, RevokeForRefresh(n)), steps)
    ensures forall m :: !Enabled(After(Do(s, RevokeForRefresh(n)), steps), ReadForRefresh(m, s.flights[n].id))
    ensures forall a, b :: !Enabled(After(Do(s, RevokeForRefresh(n)), steps), Refresh(s.flights[n].id, a, b))
  {
    StepKeepsKnown(s, RevokeForRefresh(n));
    RevocationIsPermanent(Do(s, RevokeForRefresh(n)), steps, s.flights[n].id);
  }

  lemma Prepend(s: State, step: Step, rest: seq<Step>) returns (steps: seq<Step>)
    requires Enabled(s, step) && Runs(Do(s, step), rest)
    ensures steps == [step] + rest && Runs(s, steps) && After(s, steps) == After(Do(s, step), rest)
  {
    steps := [step] + rest;
    assert steps[1..] == rest;
  }

  // ---- Where it stops ---------------------------------------------------------------------------
  // Neither condition can be weakened: whatever the state, after any step that contends or doubles
  // some run breaks the property, and it only has to finish the refreshes under way.

  function Finish(s: State, n: nat, id: string, hash: string): State
    requires n in s.flights && Unused(s, id, hash)
  {
    var revoked := if s.flights[n].revoked then s else Do(s, RevokeForRefresh(n));
    Do(revoked, CreateForRefresh(n, id, hash))
  }

  lemma {:induction false} Completion(s: State, n: nat, id: string, hash: string, rest: seq<Step>)
    returns (steps: seq<Step>)
    requires n in s.flights && Unused(s, id, hash) && Runs(Finish(s, n, id, hash), rest)
    ensures Runs(s, steps) && After(s, steps) == After(Finish(s, n, id, hash), rest)
  {
    var revoked := if s.flights[n].revoked then s else Do(s, RevokeForRefresh(n));
    steps := Prepend(revoked, CreateForRefresh(n, id, hash), rest);
    if !s.flights[n].revoked {
      steps := Prepend(s, RevokeForRefresh(n), steps);
    }
  }

  predicate UnusedPair(s: State, b: string, h: string, c: string, i: string) {
    Unused(s, b, h) && Unused(s, c, i) && b != c && h != i
  }

  // Any contended read: both refreshes then exchange the one token.
  lemma {:induction false} ContendedReadWinsTwice(s: State, m: nat, id: string, n: nat, b: string, h: string, c: string,
          i: string)
    returns (steps: seq<Step>)
    requires Known(s) && FlightsTrue(s) && Enabled(s, ReadForRefresh(m, id)) && n in s.flights && s.flights[n].id == id
    requires UnusedPair(s, b, h, c, i)
    ensures Runs(s, steps) && steps != [] && steps[0] == ReadForRefresh(m, id)
    ensures WonTwice(After(s, steps), s.rows[id].refresh)
  {
    var s1 := Do(s, ReadForRefresh(m, id));
    var s2 := Finish(s1, n, b, h);
    var s3 := Finish(s2, m, c, i);
    steps := Completion(s2, m, c, i, []);
    steps := Completion(s1, n, b, h, steps);
    steps := Prepend(s, ReadForRefresh(m, id), steps);
    assert s3.won == s.won + [s.rows[id].refresh] + [s.rows[id].refresh];
    assert s3.won[|s.won|] == s.rows[id].refresh && s3.won[|s.won| + 1] == s.rows[id].refresh;
  }

  // So does a whole refresh that falls inside another.
  lemma {:induction false} ContendedRefreshWinsTwice(s: State, step: Step, n: nat, b: string, h: string)
    returns (steps: seq<Step>)
    requires Known(s) && FlightsTrue(s) && step.Refresh? && Enabled(s, step) && n in s.flights
    requires s.flights[n].id == step.id
    requires UnusedPair(s, b, h, step.newId, step.newHash)
    ensures Runs(s, steps) && steps != [] && steps[0] == step
    ensures WonTwice(After(s, steps), s.rows[step.id].refresh)
  {
    var s1 := Do(s, step);
    var s2 := Finish(s1, n, b, h);
    steps := Completion(s1, n, b, h, []);
    steps := Prepend(s, step, steps);
    assert s2.won == s.won + [s.rows[step.id].refresh] + [s.rows[step.id].refresh];
    assert s2.won[|s.won|] == s.rows[step.id].refresh && s2.won[|s.won| + 1] == s.rows[step.id].refresh;
  }

  // Any step that doubles: two finished sessions of the person are then open. The names are any that
  // are unused after it.
  lemma {:induction false} DoublingLeavesTwo(s: State, step: Step, user: string, b: string, h: string, c: string,
          i: string)
    returns (steps: seq<Step>)
    requires Known(s) && FlightsTrue(s) && Enabled(s, step) && Doubles(s, step, user)
    requires UnusedPair(Do(s, step), b, h, c, i)
    ensures Runs(s, steps) && steps != [] && steps[0] == step && !OneFinished(After(s, steps), user)
  {
    if step.Evict? {
      steps := CrossedEvictionLeavesTwo(s, step, user, b, h, c, i);
    } else if step.Refresh? {
      steps := ContendedRefreshLeavesTwo(s, step, user, b, h);
    } else {
      steps := ContendedReadLeavesTwo(s, step, user, b, h, c, i);
    }
  }

  lemma {:induction false} CrossedEvictionLeavesTwo(s: State, step: Step, user: string, b: string, h: string, c: string,
          i: string)
    returns (steps: seq<Step>)
    requires Known(s) && FlightsTrue(s) && Enabled(s, step) && Crosses(s, step, user) && UnusedPair(s, b, h, c, i)
    ensures Runs(s, steps) && steps != [] && steps[0] == step && !OneFinished(After(s, steps), user)
  {
    var n :| FinishedFlight(s, n, user) && s.flights[n].id != step.id;
    var s1 := Do(s, step);
    assert FinishedFlight(s1, n, user);
    if s.rows[step.id].revoked.None? {
      assert OpenRival(s1, step.id, user);
      FinishingOpens(s1, n, user, b, h, step.id);
      steps := Completion(s1, n, b, h, []);
    } else {
      var m :| m in s.flights && s.flights[m].id == step.id;
      assert FinishedFlight(s1, m, user) && s1.flights[m].id in s1.usedIds;
      steps := TwoFinishedFlights(s1, user, n, m, b, h, c, i);
    }
    steps := Prepend(s, step, steps);
  }

  // A session finished already goes on in both refreshes.
  lemma {:induction false} ContendedRefreshLeavesTwo(s: State, step: Step, user: string, b: string, h: string)
    returns (steps: seq<Step>)
    requires Known(s) && FlightsTrue(s) && Enabled(s, step) && step.Refresh? && ContendsSingle(s, step, user)
    requires Unused(Do(s, step), b, h)
    ensures Runs(s, steps) && steps != [] && steps[0] == step && !OneFinished(After(s, steps), user)
  {
    var n :| n in s.flights && s.flights[n].id == step.id;
    var s1 := Do(s, step);
    assert FinishedFlight(s1, n, user) && OpenRival(s1, step.newId, user);
    FinishingOpens(s1, n, user, b, h, step.newId);
    steps := Completion(s1, n, b, h, []);
    steps := Prepend(s, step, steps);
  }

  // One read twice is finished for both refreshes by its own eviction.
  lemma {:induction false} ContendedReadLeavesTwo(s: State, step: Step, user: string, b: string, h: string, c: string,
          i: string)
    returns (steps: seq<Step>)
    requires Known(s) && FlightsTrue(s) && Enabled(s, step) && step.ReadForRefresh? && ContendsSingle(s, step, user)
    requires UnusedPair(s, b, h, c, i)
    ensures Runs(s, steps) && steps != [] && steps[0] == step && !OneFinished(After(s, steps), user)
  {
    var n :| n in s.flights && s.flights[n].id == step.id;
    var s1 := Do(s, step);
    var s2 := Do(s1, Evict(step.id));
    assert FinishedFlight(s2, n, user) && FinishedFlight(s2, step.request, user);
    steps := TwoFinishedFlights(s2, user, n, step.request, b, h, c, i);
    steps := Prepend(s1, Evict(step.id), steps);
    steps := Prepend(s, step, steps);
  }

  lemma {:induction false} TwoFinishedFlights(s: State, user: string, n: nat, m: nat, b: string, h: string, c: string,
          i: string)
    returns (steps: seq<Step>)
    requires FinishedFlight(s, n, user) && FinishedFlight(s, m, user) && m != n
    requires UnusedPair(s, b, h, c, i) && s.flights[m].id in s.usedIds
    ensures Runs(s, steps) && !OneFinished(After(s, steps), user)
  {
    var s1 := Finish(s, n, b, h);
    FinishingOpens(s, n, user, b, h, b);
    FinishingOpens(s1, m, user, c, i, b);
    steps := Completion(s1, m, c, i, []);
    steps := Completion(s, n, b, h, steps);
  }

  // Finishing a finished session's refresh opens a finished session, and leaves any other open.
  lemma {:induction false} FinishingOpens(s: State, n: nat, user: string, b: string, h: string, other: string)
    requires FinishedFlight(s, n, user) && Unused(s, b, h)
    ensures OpenRival(Finish(s, n, b, h), b, user)
    ensures OpenRival(s, other, user) && other != s.flights[n].id && other != b ==>
      OpenRival(Finish(s, n, b, h), other, user)
  {
  }

  // ---- Ending all sessions beside a refresh ---------------------------------------------------

  // A refresh already under way when all of a person's sessions are ended, by a password change
  // say, still opens a session that is accepted ...
  lemma {:induction false} RefreshOutlivesRevokeAll(s: State, n: nat, b: string, h: string) returns (steps: seq<Step>)
    requires Known(s) && n in s.flights && Unused(s, b, h)
    ensures Runs(s, steps) && steps != [] && steps[0] == RevokeAll(s.flights[n].row.user)
    ensures Accepts(After(s, steps), b) && After(s, steps).rows[b].user == s.flights[n].row.user
  {
    var s1 := Do(s, RevokeAll(s.flights[n].row.user));
    steps := Completion(s1, n, b, h, []);
    steps := Prepend(s, RevokeAll(s.flights[n].row.user), steps);
  }

  ghost predicate NobodyRefreshing(s: State, user: string) {
    forall n :: n in s.flights ==> s.flights[n].row.user != user
  }

  ghost predicate NoLogin(steps: seq<Step>, user: string) {
    forall i :: 0 <= i < |steps| ==> steps[i].Create? ==> steps[i].row.user != user
  }

  // ... and nothing else does: with none under way, every session of the person stays ended until
  // they sign in again.
  lemma {:induction false} RevokeAllEndsAll(s: State, user: string, steps: seq<Step>)
    requires NobodyRefreshing(s, user) && Runs(Do(s, RevokeAll(user)), steps) && NoLogin(steps, user)
    ensures AllOver(After(Do(s, RevokeAll(user)), steps), user)
  {
    NothingReopens(Do(s, RevokeAll(user)), user, steps);
  }

  ghost predicate AllOver(s: State, user: string) {
    forall id :: id in s.rows && s.rows[id].user == user ==> s.rows[id].revoked.Some?
  }

  lemma {:induction false} NothingReopens(s: State, user: string, steps: seq<Step>)
    requires AllOver(s, user) && NobodyRefreshing(s, user) && Runs(s, steps) && NoLogin(steps, user)
    ensures AllOver(After(s, steps), user)
    decreases |steps|
  {
    if steps != [] {
      StepReopensNothing(s, user, steps[0]);
      assert NoLogin(steps[1..], user);
      NothingReopens(Do(s, steps[0]), user, steps[1..]);
    }
  }

  lemma {:induction false} StepReopensNothing(s: State, user: string, step: Step)
    requires AllOver(s, user) && NobodyRefreshing(s, user) && Enabled(s, step)
    requires (step.Create? ==> step.row.user != user)
    ensures AllOver(Do(s, step), user) && NobodyRefreshing(Do(s, step), user)
  {
  }

  // ---- What one step decides ------------------------------------------------------------------------

  // The steps that end an accepted session, each the one it names or those of the one person.
  ghost predicate EndsSession(s: State, step: Step, id: string)
    requires Enabled(s, step) && id in s.rows
  {
    match step
    case Tick(elapsed) => s.rows[id].expires <= s.clock + elapsed
    case Evict(keep) => id != keep && s.rows[id].single && s.rows[id].user == s.rows[keep].user
    case Refresh(old', _, _) => id == old'
    case RevokeForRefresh(n) => id == s.flights[n].id
    case Revoke(named) => id == named
    case RevokeAll(user) => s.rows[id].user == user
    case _ => false
  }

  lemma {:induction false} StepEndsIff(s: State, step: Step, id: string)
    requires Known(s) && Enabled(s, step) && Accepts(s, id)
    ensures Accepts(Do(s, step), id) <==> !EndsSession(s, step, id)
    ensures Accepts(Do(s, step), id) ==> Do(s, step).rows[id] == s.rows[id]
  {
  }

  // And the steps that open one: a login, and a refresh, which passes on whose it is and what kind,
  // for a whole life.
  lemma {:induction false} StepOpensIff(s: State, step: Step, id: string)
    requires Known(s) && Enabled(s, step) && !Accepts(s, id)
    ensures Accepts(Do(s, step), id) <==>
      || (step.Create? && step.id == id && step.row.expires > s.clock)
      || (step.Refresh? && step.newId == id) || (step.CreateForRefresh? && step.newId == id)
    ensures step.Create? && step.id == id ==> Do(s, step).rows[id] == step.row
    ensures step.Refresh? && step.newId == id ==>
      Do(s, step).rows[id] == Row(s.rows[step.id].user, step.newHash, s.rows[step.id].single, s.clock + LIFE, None)
    ensures step.CreateForRefresh? && step.newId == id ==>
      var read := s.flights[step.request].row;
      Do(s, step).rows[id] == Row(read.user, step.newHash, read.single, s.clock + LIFE, None)
  {
  }

  // So ending all of one person's sessions, or a login of theirs, decides nothing for anybody else.
  lemma {:induction false} OthersStaySignedIn(s: State, step: Step, id: string)
    requires Known(s) && Enabled(s, step) && id in s.rows
    requires || (step.RevokeAll? && s.rows[id].user != step.user)
             || (step.Evict? && (s.rows[id].user != s.rows[step.id].user || !s.rows[id].single || id == step.id))
    ensures id in Do(s, step).rows && Do(s, step).rows[id] == s.rows[id]
    ensures Accepts(Do(s, step), id) <==> Accepts(s, id)
  {
  }

  // A login goes through with unused names, and after its eviction its session is the only one of
  // the person's one-device sessions still accepted.
  lemma {:induction false} SignInWorks(s: State, id: string, row: Row, other: string)
    requires Known(s) && Unused(s, id, row.refresh) && row.revoked.None? && row.single && row.expires > s.clock
    ensures Enabled(s, Create(id, row)) && Enabled(Do(s, Create(id, row)), Evict(id))
    ensures
      var end := Do(Do(s, Create(id, row)), Evict(id));
      && Accepts(end, id)
      && (other in end.rows && end.rows[other].user == row.user && end.rows[other].single && Accepts(end, other) ==>
            other == id)
  {
  }

  // Any number of refreshes may read one open session.
  lemma RefreshesOverlap(s: State, n: nat, m: nat, id: string)
    requires n != m && n !in s.flights && m !in s.flights && Accepts(s, id)
    ensures Runs(s, [ReadForRefresh(n, id), ReadForRefresh(m, id)])
    ensures After(s, [ReadForRefresh(n, id), ReadForRefresh(m, id)]).rows == s.rows
  {
    var one, two := ReadForRefresh(n, id), ReadForRefresh(m, id);
    assert [one, two][1..] == [two] && [two][1..] == [];
    var last := Do(Do(s, one), two);
    assert Runs(last, []) && After(last, []) == last;
    assert Runs(Do(s, one), [two]) && After(Do(s, one), [two]) == last;
  }

  // ---- Housekeeping changes no decision -----------------------------------------------------

  predicate Housekeeping(step: Step) {
    step.DeleteExpired? || step.DeleteDead?
  }

  // What goes is what expired before the cutoff, and the second sweep takes what was revoked before it too.
  lemma SweepDeletesIff(s: State, cutoff: int, id: string)
    requires cutoff <= s.clock
    ensures Enabled(s, DeleteExpired(cutoff)) && Enabled(s, DeleteDead(cutoff))
    ensures id in Do(s, DeleteExpired(cutoff)).rows <==> id in s.rows && cutoff <= s.rows[id].expires
    ensures id in Do(s, DeleteDead(cutoff)).rows <==>
      && id in s.rows && cutoff <= s.rows[id].expires
      && (s.rows[id].revoked.Some? ==> cutoff <= s.rows[id].revoked.value)
  {
  }

  // What a request asks of the table.
  predicate Accepts(s: State, id: string) {
    id in s.rows && IsActive(s.rows[id], s.clock)
  }

  // `swept` is `full` with some rows gone, none of which can ever be active again.
  ghost predicate SweptFrom(swept: State, full: State) {
    && swept == full.(rows := swept.rows)
    && (forall id :: id in swept.rows ==> id in full.rows && full.rows[id] == swept.rows[id])
    && (forall id :: id in full.rows && id !in swept.rows ==> !IsActive(full.rows[id], full.clock))
  }

  lemma SweepKeepsDecisions(swept: State, full: State, id: string)
    requires SweptFrom(swept, full)
    ensures Accepts(swept, id) == Accepts(full, id)
  {
  }

  lemma SweptStep(swept: State, full: State, step: Step)
    requires SweptFrom(swept, full) && Known(full) && Enabled(swept, step)
    ensures Housekeeping(step) ==> SweptFrom(Do(swept, step), full)
    ensures !Housekeeping(step) ==> Enabled(full, step) && SweptFrom(Do(swept, step), Do(full, step))
  {
    if Housekeeping(step) {
      SweptAgain(swept, full, step);
    } else if step.Evict? {
      SweptEvict(swept, full, step);
    } else if step.Refresh? {
      SweptRefresh(swept, full, step);
    } else if step.CreateForRefresh? {
      SweptCreate(swept, full, step);
    } else if step.Revoke? || step.RevokeAll? || step.RevokeForRefresh? {
      SweptRevocation(swept, full, step);
    }
  }

  lemma SweptRevocation(swept: State, full: State, step: Step)
    requires SweptFrom(swept, full) && Enabled(swept, step)
    requires (step.Revoke? || step.RevokeAll? || step.RevokeForRefresh?)
    ensures Enabled(full, step) && SweptFrom(Do(swept, step), Do(full, step))
  {
  }

  lemma SweptAgain(swept: State, full: State, step: Step)
    requires SweptFrom(swept, full) && Enabled(swept, step) && Housekeeping(step)
    ensures SweptFrom(Do(swept, step), full)
  {
  }

  lemma SweptEvict(swept: State, full: State, step: Step)
    requires SweptFrom(swept, full) && Enabled(swept, step) && step.Evict?
    ensures Enabled(full, step) && SweptFrom(Do(swept, step), Do(full, step))
  {
  }

  lemma SweptRefresh(swept: State, full: State, step: Step)
    requires SweptFrom(swept, full) && Known(full) && Enabled(swept, step) && step.Refresh?
    ensures Enabled(full, step) && SweptFrom(Do(swept, step), Do(full, step))
  {
  }

  lemma SweptCreate(swept: State, full: State, step: Step)
    requires SweptFrom(swept, full) && Known(full) && Enabled(swept, step) && step.CreateForRefresh?
    ensures Enabled(full, step) && SweptFrom(Do(swept, step), Do(full, step))
  {
  }

  function Unswept(steps: seq<Step>): seq<Step> {
    if steps == [] then []
    else if Housekeeping(steps[0]) then Unswept(steps[1..])
    else [steps[0]] + Unswept(steps[1..])
  }

  lemma {:induction false} SweptRun(swept: State, full: State, steps: seq<Step>)
    requires SweptFrom(swept, full) && Known(full) && Runs(swept, steps)
    ensures Runs(full, Unswept(steps)) && SweptFrom(After(swept, steps), After(full, Unswept(steps)))
    decreases |steps|
  {
    if steps != [] {
      var step := steps[0];
      SweptStep(swept, full, step);
      if Housekeeping(step) {
        SweptRun(Do(swept, step), full, steps[1..]);
      } else {
        StepKeepsKnown(full, step);
        SweptRun(Do(swept, step), Do(full, step), steps[1..]);
        assert Unswept(steps)[1..] == Unswept(steps[1..]);
      }
    }
  }

  // Striking every deletion out of a run leaves the same sessions accepted and the same
  // refresh tokens exchanged.
  lemma HousekeepingChangesNoDecision(steps: seq<Step>, id: string)
    requires Runs(INITIAL, steps)
    ensures Runs(INITIAL, Unswept(steps))
    ensures Accepts(After(INITIAL, steps), id) == Accepts(After(INITIAL, Unswept(steps)), id)
    ensures After(INITIAL, steps).won == After(INITIAL, Unswept(steps)).won
  {
    SweptRun(INITIAL, INITIAL, steps);
    SweepKeepsDecisions(After(INITIAL, steps), After(INITIAL, Unswept(steps)), id);
  }
}
