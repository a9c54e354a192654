// The session table and the service that opens, rotates and ends sessions
// (internal/repository/repositories.go, internal/services/auth_service.go).
module Sessions {
  import opened Prelude
  import RL = RevocationList
  import RS = RevocationStore

  datatype Row = Row(user: string, refresh: string, single: bool, expires: int, revoked: Option<int>)

  // Rows by the token id they were issued with.
  type Table = map<string, Row>

  predicate IsActive(row: Row, now: int) {
    row.revoked.None? && row.expires > now
  }

  // Marks the rows in `ids` that are not yet revoked; a first revocation time is never moved.
  function Ended(t: Table, ids: set<string>, now: int): Table {
    map id | id in t :: if id in ids && t[id].revoked.None? then t[id].(revoked := Some(now)) else t[id]
  }

  function OpenOf(t: Table, user: string): set<string> {
    set id | id in t && t[id].user == user && t[id].revoked.None?
  }

  function Rivals(t: Table, user: string, keep: string): set<string> {
    set id | id in t && t[id].user == user && t[id].single && id != keep && t[id].revoked.None?
  }

  // Housekeeping: what expired before the cutoff, and what has been dead since before it.
  function Unexpired(t: Table, cutoff: int): Table {
    map id | id in t && t[id].expires >= cutoff :: t[id]
  }

  predicate DeadBefore(row: Row, cutoff: int) {
    (row.revoked.Some? && row.revoked.value < cutoff) || row.expires < cutoff
  }

  function Undead(t: Table, cutoff: int): Table {
    map id | id in t && !DeadBefore(t[id], cutoff) :: t[id]
  }

  // The user's own limit wins; zero defers to the company's; only a limit of one is enforced.
  predicate OneDevice(ownLimit: int, companyLimit: Option<int>) {
    var limit := if ownLimit == 0 && companyLimit.Some? then companyLimit.value else ownLimit;
    limit == 1
  }

  // Exactly the rows that `ends` names are ended now, the ids stay, and nothing else changes.
  ghost predicate EndsExactly(before: Table, after: Table, ends: (string, Row) -> bool, now: int) {
    && after.Keys == before.Keys
    && forall id :: id in before ==>
         after[id] == if ends(id, before[id]) then before[id].(revoked := Some(now)) else before[id]
  }

  class SessionRepository {
    var rows: Table
    const announcer: RS.Store?

    constructor (announcer: RS.Store?)
      ensures rows == map[] && this.announcer == announcer
    {
      rows := map[];
      this.announcer := announcer;
    }

    method Create(id: string, row: Row) returns (created: bool)
      modifies this
      ensures created <==>
        id !in old(rows) && forall other :: other in old(rows) ==> old(rows)[other].refresh != row.refresh
      ensures rows == if created then old(rows)[id := row] else old(rows)
    {
      created := id !in rows && forall other :: other in rows ==> rows[other].refresh != row.refresh;
      if created {
        rows := rows[id := row];
      }
    }

    method FindByRefreshHash(hash: string) returns (id: Option<string>)
      ensures id.Some? ==> id.value in rows && rows[id.value].refresh == hash
      ensures id.None? ==> forall other :: other in rows ==> rows[other].refresh != hash
    {
      if other :| other in rows && rows[other].refresh == hash {
        return Some(other);
      }
      return None;
    }

    // Ends one session, and announces nothing.
    method Revoke(id: string, now: int)
      modifies this
      ensures rows == Ended(old(rows), {id}, now)
      ensures EndsExactly(old(rows), rows, (i: string, row: Row) => i == id && row.revoked.None?, now)
    {
      if id in rows && rows[id].revoked.None? {
        rows := rows[id := rows[id].(revoked := Some(now))];
      }
    }

    // Ends every open session of a person and announces one cutoff.
    method RevokeAllForUser(user: string, now: int, write: RS.Reply, announce: RS.Reply) returns (ended: nat)
      requires now != RS.ZERO_TIME
      modifies this, announcer
      ensures rows == Ended(old(rows), OpenOf(old(rows), user), now)
      // The person's open rows end, each now and counted; nobody else's row changes, nor does one
      // that was ended already.
      ensures EndsExactly(old(rows), rows, (_: string, row: Row) => row.user == user && row.revoked.None?, now)
      ensures ended == |set id | id in old(rows) && old(rows)[id].user == user && old(rows)[id].revoked.None?|
      ensures announcer != null && write.Failed? ==>
        announcer.entries == old(announcer.entries) && announcer.announced == old(announcer.announced)
      ensures announcer != null && write.Accepted? ==>
        var e := RL.Event(RL.User, user, now);
        && announcer.entries ==
             old(announcer.entries)[RS.Key(RL.User, user) := RS.Entry(e, now + announcer.maxTokenLife)]
        && announcer.announced == old(announcer.announced) + if announce.Accepted? then [e] else []
    {
      var open := OpenOf(rows, user);
      rows := Ended(rows, open, now);
      ended := |open|;
      if announcer != null {
        var _ := announcer.Publish(RL.Event(RL.User, user, now), now, write, announce);
      }
    }

    // A new login on a one-device account ends the others, announcing each by its own id: a
    // cutoff would refuse the login that has just happened.
    method RevokeOtherSingleDeviceSessions(user: string, keep: string, now: int, write: RS.Reply, announce: RS.Reply)
      requires now != RS.ZERO_TIME
      modifies this, announcer
      ensures rows == Ended(old(rows), Rivals(old(rows), user, keep), now)
      ensures EndsExactly(old(rows), rows,
        (id: string, row: Row) => row.user == user && row.single && id != keep && row.revoked.None?, now)
      ensures announcer != null ==>
        EvictionsTold(write, announce, old(announcer.entries), old(announcer.announced), announcer.entries,
            announcer.announced, Rivals(old(rows), user, keep), now, announcer.maxTokenLife)
    {
      var evicted := Rivals(rows, user, keep);
      rows := Ended(rows, evicted, now);
      if announcer != null {
        ghost var order := AnnounceEach(evicted, now, write, announce);
        OrderIsTold(write, announce, old(announcer.entries), old(announcer.announced), order, now,
            announcer.maxTokenLife);
      }
    }

    method AnnounceOne(id: string, now: int, write: RS.Reply, announce: RS.Reply, ghost entries: map<RS.Key, RS.Entry>,
            ghost announced: seq<RL.Event>, ghost order: seq<string>)
      requires now != RS.ZERO_TIME && announcer != null
      requires announcer.entries == EntriesTold(write, entries, order, now, announcer.maxTokenLife)
      requires announcer.announced == announced + AnnouncementsTold(write, announce, order, now)
      modifies announcer
      ensures announcer.entries == EntriesTold(write, entries, order + [id], now, announcer.maxTokenLife)
      ensures announcer.announced == announced + AnnouncementsTold(write, announce, order + [id], now)
    {
      OneMoreTold(write, announce, entries, order, id, now, announcer.maxTokenLife);
      var _ := announcer.Publish(RL.Event(RL.Session, id, now), now, write, announce);
    }

    // Publishes for each evicted session, in no particular order.
    method AnnounceEach(evicted: set<string>, now: int, write: RS.Reply, announce: RS.Reply)
      returns (ghost order: seq<string>)
      requires now != RS.ZERO_TIME && announcer != null
      modifies announcer
      ensures Among(order) == evicted && |evicted| == |order|
      ensures announcer.entries == EntriesTold(write, old(announcer.entries), order, now, announcer.maxTokenLife)
      ensures announcer.announced == old(announcer.announced) + AnnouncementsTold(write, announce, order, now)
    {
      ghost var entries, announced := announcer.entries, announcer.announced;
      var todo := evicted;
      order := [];
      while todo != {}
        invariant todo !! Among(order) && Among(order) + todo == evicted && |Among(order)| == |order|
        invariant announcer.entries == EntriesTold(write, entries, order, now, announcer.maxTokenLife)
        invariant announcer.announced == announced + AnnouncementsTold(write, announce, order, now)
        decreases todo
      {
        var id :| id in todo;
        AnnounceOne(id, now, write, announce, entries, announced, order);
        assert Among(order + [id]) == Among(order) + {id};
        todo, order := todo - {id}, order + [id];
      }
    }

    method DeleteExpired(cutoff: int) returns (deleted: nat)
      modifies this
      ensures rows == Unexpired(old(rows), cutoff)
      ensures forall id :: id in rows <==> id in old(rows) && old(rows)[id].expires >= cutoff
      ensures forall id :: id in rows ==> rows[id] == old(rows)[id]
      ensures deleted == |old(rows).Keys - rows.Keys|
    {
      var before := rows.Keys;
      rows := Unexpired(rows, cutoff);
      deleted := |before - rows.Keys|;
    }

    // The nightly sweep: revoked or expired before the cutoff.
    method DeleteDead(cutoff: int)
      modifies this
      ensures rows == Undead(old(rows), cutoff)
      ensures forall id :: id in rows <==>
        && id in old(rows) && old(rows)[id].expires >= cutoff
        && (old(rows)[id].revoked.Some? ==> old(rows)[id].revoked.value >= cutoff)
      ensures forall id :: id in rows ==> rows[id] == old(rows)[id]
    {
      rows := Undead(rows, cutoff);
    }
  }

  // One announcement each, and no other.
  ghost predicate AnnouncesEach(before: seq<RL.Event>, after: seq<RL.Event>, ids: set<string>, now: int) {
    && before <= after && |after| == |before| + |ids|
    && (forall id :: id in ids ==> RL.Event(RL.Session, id, now) in after[|before|..])
    && (forall e :: e in after[|before|..] ==> e.id in ids && e == RL.Event(RL.Session, e.id, now))
  }

  // What the store holds and has announced after publishing each of `ids`: nothing if its writes
  // fail, and no announcement if those do.
  ghost predicate EvictionsTold(write: RS.Reply, announce: RS.Reply, entries: map<RS.Key, RS.Entry>,
          announced: seq<RL.Event>, entries': map<RS.Key, RS.Entry>, announced': seq<RL.Event>, ids: set<string>,
          now: int, life: int)
  {
    if write.Failed? then entries' == entries && announced' == announced
    else
      && entries' == entries + EvictionEntries(ids, now, life)
      && AnnouncesEach(announced, announced', if announce.Accepted? then ids else {}, now)
  }

  function Among(order: seq<string>): set<string> {
    set id | id in order
  }

  // The store and the announcements after publishing for each of `order` in turn.
  function EntriesAfter(entries: map<RS.Key, RS.Entry>, order: seq<string>, now: int, life: int)
    : map<RS.Key, RS.Entry>
  {
    if order == [] then entries
    else
      var e := RL.Event(RL.Session, order[|order| - 1], now);
      EntriesAfter(entries, order[..|order| - 1], now, life)[RS.KeyOf(e) := RS.Entry(e, now + life)]
  }

  function AnnouncedAfter(order: seq<string>, now: int): seq<RL.Event> {
    if order == [] then []
    else AnnouncedAfter(order[..|order| - 1], now) + [RL.Event(RL.Session, order[|order| - 1], now)]
  }

  function EntriesTold(write: RS.Reply, entries: map<RS.Key, RS.Entry>, order: seq<string>, now: int, life: int)
    : map<RS.Key, RS.Entry>
  {
    if write.Failed? then entries else EntriesAfter(entries, order, now, life)
  }

  function AnnouncementsTold(write: RS.Reply, announce: RS.Reply, order: seq<string>, now: int): seq<RL.Event> {
    if write.Failed? || announce.Failed? then [] else AnnouncedAfter(order, now)
  }

  lemma {:induction false} OneMoreTold(write: RS.Reply, announce: RS.Reply, entries: map<RS.Key, RS.Entry>,
          order: seq<string>, id: string, now: int, life: int)
    ensures Among(order + [id]) == Among(order) + {id}
    ensures
      var e := RL.Event(RL.Session, id, now);
      && EntriesTold(write, entries, order + [id], now, life) ==
           (if write.Failed? then entries
            else EntriesTold(write, entries, order, now, life)[RS.KeyOf(e) := RS.Entry(e, now + life)])
      && AnnouncementsTold(write, announce, order + [id], now) ==
           AnnouncementsTold(write, announce, order, now) + (if write.Failed? || announce.Failed? then [] else [e])
  {
    assert (order + [id])[..|order|] == order;
  }

  lemma {:induction false} OrderIsTold(write: RS.Reply, announce: RS.Reply, entries: map<RS.Key, RS.Entry>,
          announced: seq<RL.Event>, order: seq<string>, now: int, life: int)
    requires |Among(order)| == |order|
    ensures EvictionsTold(write, announce, entries, announced, EntriesTold(write, entries, order, now, life),
        announced + AnnouncementsTold(write, announce, order, now), Among(order), now, life)
  {
    AnnouncedInOrder(order, now);
    EntriesInOrder(entries, order, now, life);
    assert (announced + AnnouncedAfter(order, now))[|announced|..] == AnnouncedAfter(order, now);
    assert announced + [] == announced;
  }

  lemma {:induction false} AnnouncedInOrder(order: seq<string>, now: int)
    ensures |AnnouncedAfter(order, now)| == |order|
    ensures forall e :: e in AnnouncedAfter(order, now) <==> e == RL.Event(RL.Session, e.id, now) && e.id in order
  {
    if order != [] {
      AnnouncedInOrder(order[..|order| - 1], now);
      assert order == order[..|order| - 1] + [order[|order| - 1]];
    }
  }

  lemma {:induction false} EntriesInOrder(entries: map<RS.Key, RS.Entry>, order: seq<string>, now: int, life: int)
    ensures EntriesAfter(entries, order, now, life) == entries + EvictionEntries(Among(order), now, life)
  {
    if order != [] {
      EntriesInOrder(entries, order[..|order| - 1], now, life);
      assert order == order[..|order| - 1] + [order[|order| - 1]];
    }
  }

  function EvictionEntries(ids: set<string>, now: int, life: int): map<RS.Key, RS.Entry> {
    map k: RS.Key | k in (set id | id in ids :: RS.Key(RL.Session, id)) ::
      RS.Entry(RL.Event(RL.Session, k.id, now), now + life)
  }

  // ---- The service ----------------------------------------------------------------------

  datatype Account = Account(company: string, suspended: bool, ownLimit: int, companyLimit: Option<int>)

  datatype AuthError = TokenInvalid | SessionRevoked | AccountSuspended | AccountDeleted | Broken

  // What a caller presents: nothing, a signed token, or an opaque key.
  datatype Credential = Absent | Jwt(token: RL.Token, genuine: bool) | Opaque(key: string)

  // The signature, issuer and subject are right and the clock is within the token's life.
  predicate Verified(c: Credential, now: int) {
    c.Jwt? && c.genuine && c.token.user != "" && c.token.iat <= now < c.token.exp
  }

  // A credential resolved against the store: one-device sessions must still be open there.
  function Validated(t: Table, accounts: map<string, Account>, keys: map<string, string>, c: Credential, now: int)
    : Result<string, AuthError>
  {
    match c
    case Absent => Err(TokenInvalid)
    case Opaque(key) => if key in keys then Ok(keys[key]) else Err(TokenInvalid)
    case Jwt(token, _) =>
      if !Verified(c, now) then Err(TokenInvalid)
      else if token.singleDevice && token.id != "" && (token.id !in t || !IsActive(t[token.id], now)) then
        Err(SessionRevoked)
      else if token.user !in accounts then Err(AccountDeleted)
      else if accounts[token.user].suspended then Err(AccountSuspended)
      else Ok(token.user)
  }

  // Both the token id and the refresh hash are unique columns.
  ghost predicate Takes(t: Table, id: string, hash: string) {
    id !in t && forall other :: other in t ==> t[other].refresh != hash
  }

  lemma EndingTakesNoName(t: Table, ended: set<string>, now: int, id: string, hash: string)
    ensures Takes(Ended(t, ended, now), id, hash) <==> Takes(t, id, hash)
  {
    forall other | other in t ensures Ended(t, ended, now)[other].refresh == t[other].refresh {
    }
  }

  ghost predicate HashesUnique(t: Table) {
    forall a, b :: a in t && b in t && t[a].refresh == t[b].refresh ==> a == b
  }

  predicate Names(t: Table, id: string, hash: string) {
    id in t && t[id].refresh == hash
  }

  // An active session of an account in good standing.
  predicate Renewable(t: Table, accounts: map<string, Account>, id: string, hash: string, now: int) {
    Names(t, id, hash) && IsActive(t[id], now) && t[id].user in accounts && !accounts[t[id].user].suspended
  }

  class AuthService {
    const sessions: SessionRepository
    var accounts: map<string, Account>
    const refreshLife: int

    constructor (sessions: SessionRepository, accounts: map<string, Account>, refreshLife: int)
      ensures this.sessions == sessions && this.accounts == accounts && this.refreshLife == refreshLife
    {
      this.sessions, this.accounts, this.refreshLife := sessions, accounts, refreshLife;
    }

    // Opens a session; a one-device account's other sessions are ended only once the new one
    // exists, so a failure never leaves a person with none. A failed eviction is only logged.
    method IssueSession(user: string, id: string, hash: string, now: int, evicts: bool, write: RS.Reply,
            announce: RS.Reply)
      returns (single: Option<bool>)
      requires user in accounts && now != RS.ZERO_TIME
      modifies sessions, sessions.announcer
      ensures single.Some? <==> Takes(old(sessions.rows), id, hash)
      ensures single.None? ==> sessions.rows == old(sessions.rows)
      ensures single.Some? ==>
        var one := OneDevice(accounts[user].ownLimit, accounts[user].companyLimit);
        var withNew := old(sessions.rows)[id := Row(user, hash, one, now + refreshLife, None)];
        && single.value == one
        && sessions.rows == (if one && evicts then Ended(withNew, Rivals(withNew, user, id), now) else withNew)
      // The person's own limit decides unless it is zero; the new session is open for the refresh
      // token's life, and on a one-device account it is the person's only open one of its kind.
      ensures single.Some? ==>
        && (single.value <==>
              accounts[user].ownLimit == 1 || (accounts[user].ownLimit == 0 && accounts[user].companyLimit == Some(1)))
        && id in sessions.rows && sessions.rows[id] == Row(user, hash, single.value, now + refreshLife, None)
        && EndsExactly(old(sessions.rows), sessions.rows - {id}, (_: string, row: Row) =>
             single.value && evicts && row.user == user && row.single && row.revoked.None?, now)
    {
      var account := accounts[user];
      var limit := account.ownLimit;
      if limit == 0 && account.companyLimit.Some? {
        limit := account.companyLimit.value;
      }
      var one := limit == 1;
      var created := sessions.Create(id, Row(user, hash, one, now + refreshLife, None));
      if !created {
        return None;
      }
      if one && evicts {
        sessions.RevokeOtherSingleDeviceSessions(user, id, now, write, announce);
      }
      return Some(one);
    }

    // Rotates a refresh token: the session it names ends and a new one takes its place.
    method Refresh(hash: string, newId: string, newHash: string, now: int) returns (r: Result<string, AuthError>)
      requires HashesUnique(sessions.rows)
      modifies sessions
      ensures r.Ok? <==>
        && (exists id :: Renewable(old(sessions.rows), accounts, id, hash, now))
        && Takes(old(sessions.rows), newId, newHash)
      ensures r.Ok? ==> exists id ::
        && Renewable(old(sessions.rows), accounts, id, hash, now)
        && r.value == old(sessions.rows)[id].user
        && sessions.rows == Rotated(old(sessions.rows), id, newId, newHash, now, refreshLife)
      // Its successor is the same person's, of the same kind, open for a whole life; nothing else changes.
      ensures r.Ok? ==> exists id ::
        && Names(old(sessions.rows), id, hash) && r.value == old(sessions.rows)[id].user && newId in sessions.rows
        && sessions.rows[newId] == Row(r.value, newHash, old(sessions.rows)[id].single, now + refreshLife, None)
        && EndsExactly(old(sessions.rows), sessions.rows - {newId}, (i: string, _: Row) => i == id, now)
      // A failure between the two writes has ended the old session already.
      ensures r == Err(Broken) <==>
        && (exists id :: Renewable(old(sessions.rows), accounts, id, hash, now))
        && !Takes(old(sessions.rows), newId, newHash)
      ensures r == Err(Broken) ==> exists id ::
        Renewable(old(sessions.rows), accounts, id, hash, now) && sessions.rows == Ended(old(sessions.rows), {id}, now)
      ensures r == Err(SessionRevoked) <==>
        exists id :: Names(old(sessions.rows), id, hash) && !IsActive(old(sessions.rows)[id], now)
      ensures r == Err(AccountSuspended) <==> exists id ::
        && Names(old(sessions.rows), id, hash) && IsActive(old(sessions.rows)[id], now)
        && old(sessions.rows)[id].user in accounts && accounts[old(sessions.rows)[id].user].suspended
      ensures r == Err(TokenInvalid) <==> forall id :: Names(old(sessions.rows), id, hash) ==>
        IsActive(old(sessions.rows)[id], now) && old(sessions.rows)[id].user !in accounts
      ensures r.Err? && r.error != Broken ==> sessions.rows == old(sessions.rows)
    {
      var found := sessions.FindByRefreshHash(hash);
      if found.None? {
        return Err(TokenInvalid);
      }
      var id := found.value;
      var row := sessions.rows[id];
      assert Names(sessions.rows, id, hash);
      if !IsActive(row, now) {
        return Err(SessionRevoked);
      }
      if row.user !in accounts {
        return Err(TokenInvalid);
      }
      if accounts[row.user].suspended {
        return Err(AccountSuspended);
      }
      assert Renewable(sessions.rows, accounts, id, hash, now);
      EndingTakesNoName(sessions.rows, {id}, now, newId, newHash);
      sessions.Revoke(id, now);
      var created := sessions.Create(newId, Row(row.user, newHash, row.single, now + refreshLife, None));
      if !created {
        return Err(Broken);
      }
      return Ok(row.user);
    }

    method ValidateToken(c: Credential, keys: map<string, string>, now: int) returns (r: Result<string, AuthError>)
      ensures r == Validated(sessions.rows, accounts, keys, c, now)
      ensures r.Ok? && c.Opaque? <==> c.Opaque? && c.key in keys
      ensures r.Ok? && c.Jwt? <==>
        && c.Jwt? && c.genuine && c.token.user != "" && c.token.iat <= now < c.token.exp
        && (c.token.singleDevice && c.token.id != "" ==>
              && c.token.id in sessions.rows && sessions.rows[c.token.id].revoked.None?
              && sessions.rows[c.token.id].expires > now)
        && c.token.user in accounts && !accounts[c.token.user].suspended
      ensures r.Ok? ==> r.value == if c.Opaque? then keys[c.key] else c.token.user
      // One reason each, in the order they are looked at.
      ensures r == Err(TokenInvalid) <==>
        || c.Absent? || (c.Opaque? && c.key !in keys)
        || (c.Jwt? && !(c.genuine && c.token.user != "" && c.token.iat <= now < c.token.exp))
      ensures r == Err(SessionRevoked) <==>
        && c.Jwt? && c.genuine && c.token.user != "" && c.token.iat <= now < c.token.exp
        && c.token.singleDevice && c.token.id != ""
        && (c.token.id !in sessions.rows || sessions.rows[c.token.id].revoked.Some?
              || sessions.rows[c.token.id].expires <= now)
      ensures r == Err(AccountDeleted) ==> c.Jwt? && c.token.user !in accounts
      ensures r == Err(AccountSuspended) ==>
        c.Jwt? && c.token.user in accounts && accounts[c.token.user].suspended
      ensures r != Err(Broken)
    {
      if c.Absent? {
        return Err(TokenInvalid);
      }
      if c.Opaque? {
        if c.key in keys { return Ok(keys[c.key]); }
        return Err(TokenInvalid);
      }
      if !Verified(c, now) {
        return Err(TokenInvalid);
      }
      if c.token.singleDevice && c.token.id != "" {
        if c.token.id !in sessions.rows || !IsActive(sessions.rows[c.token.id], now) {
          return Err(SessionRevoked);
        }
      }
      if c.token.user !in accounts {
        return Err(AccountDeleted);
      }
      if accounts[c.token.user].suspended {
        return Err(AccountSuspended);
      }
      return Ok(c.token.user);
    }
  }

  function Rotated(t: Table, id: string, newId: string, newHash: string, now: int, life: int): Table
    requires id in t
  {
    Ended(t, {id}, now)[newId := Row(t[id].user, newHash, t[id].single, now + life, None)]
  }
}
