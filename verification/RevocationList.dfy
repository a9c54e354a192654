// The in-memory list every service keeps (internal/platform/revocation/revocation.go).
//
// Times are integers counted in nanoseconds. A list is three maps and a flag; `List` is the
// mutable object the service holds, and `ListState` is the value it holds at one moment.
module RevocationList {
  datatype Kind = Session | User | Company

  datatype Event = Event(kind: Kind, id: string, at: int)

  // The parts of a verified access token that a decision reads.
  datatype Token = Token(id: string, user: string, company: string, singleDevice: bool, iat: int, exp: int)

  datatype ListState = ListState(
    sessions: map<string, int>,
    users: map<string, int>,
    companies: map<string, int>,
    degraded: bool)

  const EMPTY := ListState(map[], map[], map[], false)

  // ---- The simple specification -------------------------------------------------------

  // An event refuses a token: its own session ended, or it was issued before the cutoff of
  // the person or the company it names. An absent identifier matches nothing.
  predicate Covers(e: Event, t: Token) {
    e.id != "" &&
    match e.kind
    case Session => t.id == e.id
    case User => t.user == e.id && t.iat < e.at
    case Company => t.company == e.id && t.iat < e.at
  }

  // ---- What the list computes ---------------------------------------------------------

  predicate CutOff(m: map<string, int>, id: string, iat: int) {
    id != "" && id in m && iat < m[id]
  }

  predicate Refuses(l: ListState, t: Token) {
    || (t.id != "" && t.id in l.sessions)
    || CutOff(l.users, t.user, t.iat)
    || CutOff(l.companies, t.company, t.iat)
  }

  function Later(m: map<string, int>, id: string, at: int): map<string, int> {
    if id !in m || m[id] < at then m[id := at] else m
  }

  function Applied(l: ListState, e: Event): ListState {
    match e.kind
    case Session => l.(sessions := l.sessions[e.id := e.at])
    case User => l.(users := Later(l.users, e.id, e.at))
    case Company => l.(companies := Later(l.companies, e.id, e.at))
  }

  function AppliedAll(l: ListState, es: seq<Event>): ListState {
    if es == [] then l else Applied(AppliedAll(l, es[..|es| - 1]), es[|es| - 1])
  }

  function Kept(m: map<string, int>, cutoff: int): map<string, int> {
    map id | id in m && m[id] >= cutoff :: m[id]
  }

  function Pruned(l: ListState, cutoff: int): ListState {
    l.(sessions := Kept(l.sessions, cutoff), users := Kept(l.users, cutoff), companies := Kept(l.companies, cutoff))
  }

  // The announcements a list still remembers.
  predicate Remembers(l: ListState, e: Event) {
    match e.kind
    case Session => e.id in l.sessions && l.sessions[e.id] == e.at
    case User => e.id in l.users && l.users[e.id] == e.at
    case Company => e.id in l.companies && l.companies[e.id] == e.at
  }

  // ---- The list against the specification ---------------------------------------------

  // One announcement adds exactly the tokens it covers, whatever the list already held:
  // a second, earlier cutoff for the same person never narrows the later one.
  lemma ApplyAddsCovered(l: ListState, e: Event, t: Token)
    ensures Refuses(Applied(l, e), t) <==> Refuses(l, t) || Covers(e, t)
  {
  }

  lemma {:induction false} ApplyAllAddsCovered(l: ListState, es: seq<Event>, t: Token)
    ensures Refuses(AppliedAll(l, es), t) <==> Refuses(l, t) || exists i :: 0 <= i < |es| && Covers(es[i], t)
  {
    if es != [] {
      var front, last := es[..|es| - 1], es[|es| - 1];
      ApplyAllAddsCovered(l, front, t);
      ApplyAddsCovered(AppliedAll(l, front), last, t);
      assert es == front + [last];
      if i :| 0 <= i < |front| && Covers(front[i], t) {
        assert Covers(es[i], t);
      }
    }
  }

  // A freshly replaced list is the simple specification: it refuses a token exactly when one
  // of the events it was built from covers it, whatever their order and repetitions.
  lemma ReplaceIsTheSpecification(es: seq<Event>, t: Token)
    ensures Refuses(AppliedAll(EMPTY, es), t) <==> exists i :: 0 <= i < |es| && Covers(es[i], t)
  {
    ApplyAllAddsCovered(EMPTY, es, t);
  }

  // Every refusal is explained by an announcement the list still remembers, and conversely.
  lemma RefusesIffRemembered(l: ListState, t: Token)
    ensures Refuses(l, t) <==> exists e :: Remembers(l, e) && Covers(e, t)
  {
    if t.id != "" && t.id in l.sessions {
      var e := Event(Session, t.id, l.sessions[t.id]);
      assert Remembers(l, e) && Covers(e, t);
    }
    if CutOff(l.users, t.user, t.iat) {
      var e := Event(User, t.user, l.users[t.user]);
      assert Remembers(l, e) && Covers(e, t);
    }
    if CutOff(l.companies, t.company, t.iat) {
      var e := Event(Company, t.company, l.companies[t.company]);
      assert Remembers(l, e) && Covers(e, t);
    }
  }

  // Pruning forgets exactly the announcements older than the cutoff.
  lemma PruneForgetsOnlyOld(l: ListState, cutoff: int, e: Event)
    ensures Remembers(Pruned(l, cutoff), e) <==> Remembers(l, e) && e.at >= cutoff
  {
  }

  // What a list remembers after a replay came from the replay or was there before.
  lemma {:induction false} ApplyAllRemembers(l: ListState, es: seq<Event>, e: Event)
    requires Remembers(AppliedAll(l, es), e)
    ensures Remembers(l, e) || e in es
  {
    if es != [] {
      var front, last := es[..|es| - 1], es[|es| - 1];
      if !Remembers(AppliedAll(l, front), e) {
        assert e == last;
      } else {
        ApplyAllRemembers(l, front, e);
      }
    }
  }

  // ---- The object ---------------------------------------------------------------------

  method PruneMap(m: map<string, int>, cutoff: int) returns (r: map<string, int>)
    ensures r == Kept(m, cutoff)
  {
    r := m;
    var todo := m.Keys;
    while todo != {}
      invariant todo <= m.Keys
      invariant r == map id | id in m && (id in todo || m[id] >= cutoff) :: m[id]
      decreases todo
    {
      var id :| id in todo;
      if r[id] < cutoff {
        r := r - {id};
      }
      todo := todo - {id};
    }
  }

  class List {
    var sessions: map<string, int>
    var users: map<string, int>
    var companies: map<string, int>
    var degraded: bool

    function View(): ListState
      reads this
    {
      ListState(sessions, users, companies, degraded)
    }

    constructor ()
      ensures View() == EMPTY
    {
      sessions, users, companies, degraded := map[], map[], map[], false;
    }

    // Reports whether a token should be refused.
    method Revoked(t: Token) returns (refused: bool)
      ensures refused == Refuses(View(), t)
      ensures refused <==> exists e :: Remembers(View(), e) && Covers(e, t)
    {
      RefusesIffRemembered(View(), t);
      if t.id != "" {
        if t.id in sessions { return true; }
      }
      if t.user != "" {
        if t.user in users && t.iat < users[t.user] { return true; }
      }
      if t.company != "" {
        if t.company in companies && t.iat < companies[t.company] { return true; }
      }
      return false;
    }

    method Apply(e: Event)
      modifies this
      ensures View() == Applied(old(View()), e)
      ensures forall t :: Refuses(View(), t) <==> Refuses(old(View()), t) || Covers(e, t)
    {
      match e.kind {
        case Session => sessions := sessions[e.id := e.at];
        case User =>
          if e.id !in users || users[e.id] < e.at {
            users := users[e.id := e.at];
          }
        case Company =>
          if e.id !in companies || companies[e.id] < e.at {
            companies := companies[e.id := e.at];
          }
      }
      forall t ensures Refuses(View(), t) <==> Refuses(old(View()), t) || Covers(e, t) {
        ApplyAddsCovered(old(View()), e, t);
      }
    }

    // Swaps the whole list; whatever it held before is gone.
    method Replace(events: seq<Event>)
      modifies this
      ensures View() == AppliedAll(EMPTY, events)
      ensures forall t :: Refuses(View(), t) <==> exists i :: 0 <= i < |events| && Covers(events[i], t)
    {
      var rebuilt := new List();
      for i := 0 to |events|
        invariant rebuilt.View() == AppliedAll(EMPTY, events[..i])
        invariant unchanged(this)
      {
        assert events[..i + 1][..i] == events[..i];
        rebuilt.Apply(events[i]);
      }
      assert events[..|events|] == events;
      KeepsFlag(EMPTY, events);
      sessions, users, companies := rebuilt.sessions, rebuilt.users, rebuilt.companies;
      degraded := false;
      forall t ensures Refuses(View(), t) <==> exists i :: 0 <= i < |events| && Covers(events[i], t) {
        ReplaceIsTheSpecification(events, t);
      }
    }

    // Drops what is older than the longest token lifetime.
    method Prune(maxTokenLife: int, now: int)
      modifies this
      ensures View() == Pruned(old(View()), now - maxTokenLife)
      ensures forall e :: Remembers(View(), e) <==> Remembers(old(View()), e) && e.at >= now - maxTokenLife
    {
      var cutoff := now - maxTokenLife;
      sessions := PruneMap(sessions, cutoff);
      users := PruneMap(users, cutoff);
      companies := PruneMap(companies, cutoff);
      forall e ensures Remembers(View(), e) <==> Remembers(old(View()), e) && e.at >= now - maxTokenLife {
        PruneForgetsOnlyOld(old(View()), cutoff, e);
      }
    }

    // An unreachable store changes no answer: the list goes on saying what it last knew.
    method MarkDegraded()
      modifies this
      ensures View() == old(View()).(degraded := true)
      ensures forall t :: Refuses(View(), t) == Refuses(old(View()), t)
    {
      degraded := true;
    }
  }

  // Announcements never touch the health flag.
  lemma {:induction false} KeepsFlag(l: ListState, es: seq<Event>)
    ensures AppliedAll(l, es).degraded == l.degraded
  {
    if es != [] {
      KeepsFlag(l, es[..|es| - 1]);
    }
  }
}
