// The decision every request meets (internal/platform/authctx/middleware.go), and what a
// revocation means end to end.
module Middleware {
  import opened Prelude
  import opened RevocationList
  import RP = RevocationProtocol
  import RL = RevocationLimits
  import opened Sessions
  import SP = SessionProtocol

  // What the authentication service knows when asked to confirm a credential.
  datatype Remote = Remote(rows: Table, accounts: map<string, Account>, keys: map<string, string>)

  // Local verification first; the list then decides for ordinary tokens. What local
  // verification cannot settle, and one-device sessions, go to the authentication service.
  predicate Allows(c: Credential, now: int, list: Option<ListState>, remote: Option<Remote>) {
    if c.Absent? then false
    else if Verified(c, now) && !c.token.singleDevice then
      !(list.Some? && Refuses(list.value, c.token))
    else
      remote.Some? && Validated(remote.value.rows, remote.value.accounts, remote.value.keys, c, now).Ok?
  }

  // A token past its expiry is let in by no path.
  lemma ExpiredIsRefused(t: Token, now: int, list: Option<ListState>, remote: Option<Remote>)
    requires t.exp <= now
    ensures !Allows(Jwt(t, true), now, list, remote)
  {
  }

  // A one-device token is let in only while its own session is open in the store; the list is
  // never asked about it, so a company cutoff does not reach it.
  lemma OneDeviceNeedsItsSession(t: Token, now: int, list: Option<ListState>, remote: Remote)
    requires t.singleDevice && t.id != ""
    ensures Allows(Jwt(t, true), now, list, Some(remote))
       <==> && t.user != "" && t.iat <= now < t.exp
            && t.id in remote.rows && IsActive(remote.rows[t.id], now)
            && t.user in remote.accounts && !remote.accounts[t.user].suspended
  {
  }

  // The whole decision: nothing is let in without a credential or with a token that is forged, has no
  // person, or is outside its life; an ordinary token then needs the list alone, a one-device token
  // the store, and an opaque key the list of keys.
  lemma DecisionIff(c: Credential, now: int, list: Option<ListState>, remote: Option<Remote>)
    ensures Allows(c, now, list, remote) <==>
      match c
      case Absent => false
      case Opaque(key) => remote.Some? && key in remote.value.keys
      case Jwt(t, genuine) =>
        && genuine && t.user != "" && t.iat <= now < t.exp
        && if !t.singleDevice then list.Some? ==> forall e :: Remembers(list.value, e) ==> !Covers(e, t)
           else
             && remote.Some? && t.user in remote.value.accounts && !remote.value.accounts[t.user].suspended
             && (t.id != "" ==> SessionOpen(remote.value.rows, t.id, now))
  {
    if c.Jwt? && list.Some? {
      RefusesIffRemembered(list.value, c.token);
    }
  }

  predicate SessionOpen(rows: Table, id: string, now: int) {
    id in rows && rows[id].revoked.None? && rows[id].expires > now
  }

  // The event has reached this watcher by state `j`: an announcement of it was delivered, or a
  // scan that started after it was recorded has completed; and the watcher has not restarted since.
  ghost predicate Reached(r: RP.Run, e: Event, j: nat)
    requires |r.states| == |r.steps| + 1 && j <= |r.steps|
  {
    || (exists d: nat :: d < j && r.steps[d] == RP.Deliver(e) && RP.NoRestart(r, d + 1, j))
    || (exists a: nat, b: nat ::
          b < j && RP.CompleteScan(r, a, b) && e in r.states[a].published && RP.NoRestart(r, b + 1, j))
  }

  lemma ReachedIsEnforced(life: int, r: RP.Run, e: Event, j: nat, t: Token)
    requires RP.IsRun(life, r) && RP.Orderly(r) && j <= |r.steps| && Reached(r, e, j)
    requires Covers(e, t) && RP.Live(r.states[j], t) && RP.Bounded(life, r.states[j].published, t)
    ensures Refuses(r.states[j].list, t)
  {
    if d: nat :| d < j && r.steps[d] == RP.Deliver(e) && RP.NoRestart(r, d + 1, j) {
      RP.DeliveryIsEnforced(life, r, d, j, t);
    } else {
      var a: nat, b: nat :| b < j && RP.CompleteScan(r, a, b) && e in r.states[a].published
        && RP.NoRestart(r, b + 1, j);
      RP.ResyncCatchesUp(life, r, a, b, j, e, t);
    }
  }

  // A session issued before all of the person's were ended, swept since or not, is never open again.
  lemma EndedStaysEnded(s: SP.State, user: string, steps: seq<SP.Step>, id: string)
    requires SP.Known(s) && SP.Runs(SP.Do(s, SP.RevokeAll(user)), steps)
    requires id in s.usedIds && (id in s.rows ==> s.rows[id].user == user)
    ensures SP.Over(SP.After(SP.Do(s, SP.RevokeAll(user)), steps), id)
  {
    SP.StepKeepsKnown(s, SP.RevokeAll(user));
    SP.RevocationIsPermanent(SP.Do(s, SP.RevokeAll(user)), steps, id);
  }

  // A one-device token issued before is refused from the very statement that ends its session,
  // whatever any list says: the store is asked each time.
  lemma OneDeviceTokenEndsAtOnce(s: SP.State, steps: seq<SP.Step>, t: Token, now: int, list: Option<ListState>,
          remote: Remote)
    requires SP.Known(s) && SP.Runs(SP.Do(s, SP.RevokeAll(t.user)), steps)
    requires t.singleDevice && t.id != "" && t.id in s.usedIds && (t.id in s.rows ==> s.rows[t.id].user == t.user)
    requires remote.rows == SP.After(SP.Do(s, SP.RevokeAll(t.user)), steps).rows
    ensures !Allows(Jwt(t, true), now, list, Some(remote))
  {
    EndedStaysEnded(s, t.user, steps, t.id);
    OneDeviceNeedsItsSession(t, now, list, remote);
  }

  // End to end: once ending all of a person's sessions has reached a service, no token minted
  // for them before it passes there again. The event is the one that very step announces, stamped
  // with its instant; an ordinary token waits for it to arrive, a one-device token does not.
  lemma RevokeAllEndsEveryEarlierToken(life: int, r: RP.Run, j: nat, minted: int, t: Token, s: SP.State,
          steps: seq<SP.Step>, remote: Remote)
    requires RP.IsRun(life, r) && RP.Orderly(r) && j <= |r.steps|
    requires SP.Known(s) && SP.Runs(SP.Do(s, SP.RevokeAll(t.user)), steps)
    requires remote.rows == SP.After(SP.Do(s, SP.RevokeAll(t.user)), steps).rows
    requires t.user != "" && t.iat == RL.Floor(minted) && minted < s.clock
    requires t.singleDevice ==> t.id != "" && t.id in s.usedIds && (t.id in s.rows ==> s.rows[t.id].user == t.user)
    requires !t.singleDevice ==>
      RP.Bounded(life, r.states[j].published, t) && Reached(r, Event(User, t.user, s.clock), j)
    ensures !Allows(Jwt(t, true), r.states[j].clock, Some(r.states[j].list), Some(remote))
  {
    if t.exp <= r.states[j].clock {
      ExpiredIsRefused(t, r.states[j].clock, Some(r.states[j].list), Some(remote));
    } else if t.singleDevice {
      OneDeviceTokenEndsAtOnce(s, steps, t, r.states[j].clock, Some(r.states[j].list), remote);
    } else {
      assert Covers(Event(User, t.user, s.clock), t);
      ReachedIsEnforced(life, r, Event(User, t.user, s.clock), j, t);
    }
  }

  // And no wider than that: an ordinary token minted in a strictly later second, its person's
  // published cutoffs being no later than `at` and its company and session having none, is let in.
  lemma SigningInAgainWorks(life: int, r: RP.Run, j: nat, at: int, minted: int, t: Token, remote: Option<Remote>)
    requires RP.IsRun(life, r) && j <= |r.steps|
    requires t.user != "" && !t.singleDevice && t.iat == RL.Floor(minted)
    requires RL.Floor(at) < RL.Floor(minted)
    requires t.iat <= r.states[j].clock < t.exp
    requires forall e :: e in r.states[j].published ==>
      && (e.kind == User && e.id == t.user ==> e.at <= at)
      && (e.kind == Company ==> e.id != t.company)
      && (e.kind == Session ==> e.id != t.id)
    ensures Allows(Jwt(t, true), r.states[j].clock, Some(r.states[j].list), remote)
  {
    if Refuses(r.states[j].list, t) {
      RP.RefusalIsJustified(life, r, j, t);
      RL.CutoffRefusesUntilItsSecondEnds(at, minted, 0, t.id, t.user, t.company, false);
      assert false;
    }
  }
}
