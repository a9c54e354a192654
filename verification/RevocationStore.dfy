// The durable copy of the list, the announcements, and the loop that keeps a list in step
// (internal/platform/revocation/redis.go).
module RevocationStore {
  import opened Prelude
  import opened RevocationList

  // "revoked:<kind>:<id>"; a kind holds no colon, so the pair and the string name the same key.
  datatype Key = Key(kind: Kind, id: string)

  // A key with a time to live: readable strictly before `expires`.
  datatype Entry = Entry(event: Event, expires: int)

  const TWO_HOURS := 7_200_000_000_000
  const ZERO_TIME := -62_135_596_800_000_000_000 // the unset time, year 1

  function KeyOf(e: Event): Key {
    Key(e.kind, e.id)
  }

  // What one request to the store may do.
  datatype Reply = Accepted | Failed

  // What reading one listed key may give: its event, nothing (expired or a failed read, which
  // the code does not tell apart), or bytes that do not decode.
  datatype Get = Found(event: Event) | Missing | Unreadable

  // One page of a scan, or the scan failing.
  datatype Page = Page(gets: seq<Get>) | ScanError

  function Events(gets: seq<Get>): seq<Event> {
    if gets == [] then []
    else
      var last := gets[|gets| - 1];
      Events(gets[..|gets| - 1]) + if last.Found? then [last.event] else []
  }

  // The complete list, or nothing if any page failed.
  function Scanned(pages: seq<Page>): Option<seq<Event>> {
    if pages == [] then Some([])
    else
      var front, last := Scanned(pages[..|pages| - 1]), pages[|pages| - 1];
      if front.None? || last.ScanError? then None else Some(front.value + Events(last.gets))
  }

  // A resync replaces the list, or on failure leaves every answer as it was.
  function Resynced(l: ListState, scan: Option<seq<Event>>): ListState {
    match scan
    case None => l.(degraded := true)
    case Some(es) => AppliedAll(EMPTY, es)
  }

  // One turn of the watch loop.
  datatype Turn =
    | Message(read: Get)
    | Closed(pages: seq<Page>)
    | ResyncDue(resync: seq<Page>)
    | PruneDue(now: int)

  function Turned(l: ListState, turn: Turn, maxTokenLife: int): ListState {
    match turn
    case Message(Found(e)) => Applied(l, e)
    case Message(_) => l
    case Closed(pages) => Resynced(l.(degraded := true), Scanned(pages))
    case ResyncDue(pages) => Resynced(l, Scanned(pages))
    case PruneDue(now) => Pruned(l, now - maxTokenLife)
  }

  function TurnedAll(l: ListState, turns: seq<Turn>, maxTokenLife: int): ListState {
    if turns == [] then l
    else Turned(TurnedAll(l, turns[..|turns| - 1], maxTokenLife), turns[|turns| - 1], maxTokenLife)
  }

  // ---- What the loop does, said of the answers --------------------------------------------------

  ghost predicate WasRead(pages: seq<Page>, e: Event) {
    exists i, j :: 0 <= i < |pages| && pages[i].Page? && 0 <= j < |pages[i].gets| && pages[i].gets[j] == Found(e)
  }

  ghost predicate ScanFailed(pages: seq<Page>) {
    exists i :: 0 <= i < |pages| && pages[i].ScanError?
  }

  ghost predicate SameAnswers(before: ListState, after: ListState) {
    && (forall t :: Refuses(after, t) <==> Refuses(before, t))
    && (forall e :: Remembers(after, e) <==> Remembers(before, e))
  }

  // After a scan in which some page failed every answer is as it was and the list says it is behind;
  // after any other it refuses exactly the tokens some event read covers.
  ghost predicate Refilled(before: ListState, after: ListState, pages: seq<Page>) {
    if ScanFailed(pages) then SameAnswers(before, after) && after.degraded
    else
      && (forall t :: Refuses(after, t) <==> exists e :: WasRead(pages, e) && Covers(e, t))
      && (forall e :: Remembers(after, e) ==> WasRead(pages, e))
      && !after.degraded
  }

  // What each kind of turn does to the answers.
  ghost predicate Handled(before: ListState, turn: Turn, after: ListState, maxTokenLife: int) {
    match turn
    case Message(read) =>
      && after.degraded == before.degraded
      && (forall t :: Refuses(after, t) <==> Refuses(before, t) || (read.Found? && Covers(read.event, t)))
      && (forall e :: Remembers(after, e) ==> Remembers(before, e) || read == Found(e))
    case Closed(pages) => Refilled(before, after, pages)
    case ResyncDue(pages) => Refilled(before, after, pages)
    case PruneDue(now) =>
      && after.degraded == before.degraded
      && forall e :: Remembers(after, e) <==> Remembers(before, e) && e.at >= now - maxTokenLife
  }

  lemma {:induction false} ScannedNoneIff(pages: seq<Page>)
    ensures Scanned(pages).None? <==> ScanFailed(pages)
  {
    if pages != [] {
      var front := pages[..|pages| - 1];
      ScannedNoneIff(front);
      if i :| 0 <= i < |front| && front[i].ScanError? {
        assert pages[i].ScanError?;
      }
      if i :| 0 <= i < |pages| && pages[i].ScanError? {
        assert i < |front| ==> front[i].ScanError?;
      }
    }
  }

  lemma {:induction false} ResyncRefills(l: ListState, pages: seq<Page>)
    ensures Refilled(l, Resynced(l, Scanned(pages)), pages)
  {
    ScannedNoneIff(pages);
    if Scanned(pages).Some? {
      var es := Scanned(pages).value;
      KeepsFlag(EMPTY, es);
      forall t ensures Refuses(AppliedAll(EMPTY, es), t) <==> exists e :: WasRead(pages, e) && Covers(e, t) {
        ResyncedRefusesIff(pages, t);
      }
      forall e | Remembers(AppliedAll(EMPTY, es), e) ensures WasRead(pages, e) {
        ApplyAllRemembers(EMPTY, es, e);
        ScanCollectsReads(pages, e);
      }
    }
  }

  lemma {:induction false} ResyncedRefusesIff(pages: seq<Page>, t: Token)
    requires Scanned(pages).Some?
    ensures Refuses(AppliedAll(EMPTY, Scanned(pages).value), t) <==> exists e :: WasRead(pages, e) && Covers(e, t)
  {
    var es := Scanned(pages).value;
    ReplaceIsTheSpecification(es, t);
    if i :| 0 <= i < |es| && Covers(es[i], t) {
      ScanCollectsReads(pages, es[i]);
      assert WasRead(pages, es[i]);
    }
    if e :| WasRead(pages, e) && Covers(e, t) {
      ScanCollectsReads(pages, e);
      var i :| 0 <= i < |es| && es[i] == e;
    }
  }

  // Every turn does what its kind says, whatever the list held.
  lemma {:induction false} TurnIsHandled(l: ListState, turn: Turn, maxTokenLife: int)
    ensures Handled(l, turn, Turned(l, turn, maxTokenLife), maxTokenLife)
  {
    match turn {
      case Message(read) =>
        if read.Found? {
          MessageIsHandled(l, read.event);
        }
      case Closed(pages) =>
        ClosedIsAResync(l, pages, maxTokenLife);
        ResyncRefills(l, pages);
      case ResyncDue(pages) => ResyncRefills(l, pages);
      case PruneDue(now) => PruneIsHandled(l, now - maxTokenLife);
    }
  }

  lemma {:induction false} MessageIsHandled(l: ListState, event: Event)
    ensures Applied(l, event).degraded == l.degraded
    ensures forall t :: Refuses(Applied(l, event), t) <==> Refuses(l, t) || Covers(event, t)
    ensures forall e :: Remembers(Applied(l, event), e) ==> Remembers(l, e) || e == event
  {
    forall t ensures Refuses(Applied(l, event), t) <==> Refuses(l, t) || Covers(event, t) {
      ApplyAddsCovered(l, event, t);
    }
  }

  lemma {:induction false} PruneIsHandled(l: ListState, cutoff: int)
    ensures Pruned(l, cutoff).degraded == l.degraded
    ensures forall e :: Remembers(Pruned(l, cutoff), e) <==> Remembers(l, e) && e.at >= cutoff
  {
    forall e ensures Remembers(Pruned(l, cutoff), e) <==> Remembers(l, e) && e.at >= cutoff {
      PruneForgetsOnlyOld(l, cutoff, e);
    }
  }

  // A dropped subscription is made good exactly as the timer would have.
  lemma ClosedIsAResync(l: ListState, pages: seq<Page>, maxTokenLife: int)
    ensures Turned(l, Closed(pages), maxTokenLife) == Turned(l, ResyncDue(pages), maxTokenLife)
  {
  }

  // A watcher that starts with a successful resync is right before the first announcement.
  lemma FirstResyncDecides(l: ListState, pages: seq<Page>, t: Token)
    requires Scanned(pages).Some?
    ensures Refuses(Resynced(l, Scanned(pages)), t)
       <==> exists i :: 0 <= i < |Scanned(pages).value| && Covers(Scanned(pages).value[i], t)
  {
    ReplaceIsTheSpecification(Scanned(pages).value, t);
  }

  // A scan that never fails collects exactly what its reads found, page boundaries or not.
  lemma {:induction false} ScanCollectsReads(pages: seq<Page>, e: Event)
    requires Scanned(pages).Some?
    ensures e in Scanned(pages).value
       <==> exists i, j ::
              0 <= i < |pages| && pages[i].Page? && 0 <= j < |pages[i].gets| && pages[i].gets[j] == Found(e)
  {
    if pages != [] {
      var front, last := pages[..|pages| - 1], pages[|pages| - 1];
      ScanCollectsReads(front, e);
      EventsFound(last.gets, e);
      if i, j :| 0 <= i < |front| && front[i].Page? && 0 <= j < |front[i].gets| && front[i].gets[j] == Found(e) {
        assert pages[i].gets[j] == Found(e);
      }
      if j :| 0 <= j < |last.gets| && last.gets[j] == Found(e) {
        assert pages[|pages| - 1].gets[j] == Found(e);
      }
      if i, j :| 0 <= i < |pages| && pages[i].Page? && 0 <= j < |pages[i].gets| && pages[i].gets[j] == Found(e) {
        assert i < |front| ==> front[i].gets[j] == Found(e);
      }
    }
  }

  lemma {:induction false} EventsFound(gets: seq<Get>, e: Event)
    ensures e in Events(gets) <==> exists j :: 0 <= j < |gets| && gets[j] == Found(e)
  {
    if gets != [] {
      var front, last := gets[..|gets| - 1], gets[|gets| - 1];
      EventsFound(front, e);
      assert forall j :: 0 <= j < |front| ==> front[j] == gets[j];
      if e in Events(front) {
        var j :| 0 <= j < |front| && front[j] == Found(e);
        assert gets[j] == Found(e);
      }
      if last == Found(e) {
        assert gets[|gets| - 1] == Found(e);
      }
    }
  }

  class Store {
    var entries: map<Key, Entry>
    var announced: seq<Event>
    const maxTokenLife: int

    constructor (life: int)
      ensures entries == map[] && announced == []
      ensures maxTokenLife == if life <= 0 then TWO_HOURS else life
      ensures maxTokenLife > 0
    {
      entries, announced := map[], [];
      maxTokenLife := if life <= 0 then TWO_HOURS else life;
    }

    // Writes the durable key first, then announces. A failed write announces nothing; a failed
    // announcement still counts as published.
    method Publish(event: Event, now: int, write: Reply, announce: Reply) returns (published: bool)
      modifies this
      ensures published == write.Accepted?
      ensures !published ==> entries == old(entries) && announced == old(announced)
      ensures published ==>
        var e := if event.at == ZERO_TIME then event.(at := now) else event;
        && entries == old(entries)[Key(e.kind, e.id) := Entry(e, now + maxTokenLife)]
        && announced == old(announced) + if announce.Accepted? then [e] else []
    {
      var e := event;
      if e.at == ZERO_TIME {
        e := e.(at := now);
      }
      if write.Failed? {
        return false;
      }
      entries := entries[KeyOf(e) := Entry(e, now + maxTokenLife)];
      if announce.Accepted? {
        announced := announced + [e];
      }
      return true;
    }

    // Reads the complete list page by page.
    method All(pages: seq<Page>) returns (events: Option<seq<Event>>)
      ensures events == Scanned(pages)
      ensures events.None? <==> ScanFailed(pages)
      ensures events.Some? ==> forall e :: e in events.value <==> WasRead(pages, e)
    {
      ScannedNoneIff(pages);
      var found: seq<Event> := [];
      for i := 0 to |pages|
        invariant Scanned(pages[..i]) == Some(found)
      {
        assert pages[..i + 1][..i] == pages[..i];
        if pages[i].ScanError? {
          ScanFails(pages, i);
          return None;
        }
        var gets := pages[i].gets;
        for j := 0 to |gets|
          invariant found == Scanned(pages[..i]).value + Events(gets[..j])
        {
          assert gets[..j + 1][..j] == gets[..j];
          if gets[j].Found? {
            found := found + [gets[j].event];
          }
        }
        assert gets[..|gets|] == gets;
      }
      assert pages[..|pages|] == pages;
      forall e ensures e in found <==> WasRead(pages, e) {
        ScanCollectsReads(pages, e);
      }
      return Some(found);
    }

    method Resync(list: List, pages: seq<Page>)
      modifies list
      ensures list.View() == Resynced(old(list.View()), Scanned(pages))
      ensures Refilled(old(list.View()), list.View(), pages)
    {
      ResyncRefills(list.View(), pages);
      var events := All(pages);
      if events.None? {
        list.MarkDegraded();
        return;
      }
      list.Replace(events.value);
    }

    method TakeTurn(list: List, turn: Turn)
      modifies list
      ensures list.View() == Turned(old(list.View()), turn, maxTokenLife)
      ensures Handled(old(list.View()), turn, list.View(), maxTokenLife)
    {
      TurnIsHandled(list.View(), turn, maxTokenLife);
      match turn {
        case Message(read) =>
          if read.Found? {
            list.Apply(read.event);
          }
        case Closed(pages) =>
          list.MarkDegraded();
          Resync(list, pages);
        case ResyncDue(pages) =>
          Resync(list, pages);
        case PruneDue(now) =>
          list.Prune(maxTokenLife, now);
      }
    }

    // Resyncs first, then handles announcements, dropped subscriptions and both timers in the
    // order they arrive. `views` is what the list was after the first resync and after each turn.
    method Watch(list: List, first: seq<Page>, turns: seq<Turn>) returns (ghost views: seq<ListState>)
      modifies list
      ensures |views| == |turns| + 1 && list.View() == views[|turns|]
      ensures Refilled(old(list.View()), views[0], first)
      ensures forall i :: 0 <= i < |turns| ==> Handled(views[i], turns[i], views[i + 1], maxTokenLife)
      ensures list.View() == TurnedAll(Resynced(old(list.View()), Scanned(first)), turns, maxTokenLife)
    {
      Resync(list, first);
      views := [list.View()];
      for i := 0 to |turns|
        invariant |views| == i + 1 && list.View() == views[i]
        invariant Refilled(old(list.View()), views[0], first)
        invariant forall j :: 0 <= j < i ==> Handled(views[j], turns[j], views[j + 1], maxTokenLife)
        invariant list.View() == TurnedAll(Resynced(old(list.View()), Scanned(first)), turns[..i], maxTokenLife)
      {
        assert turns[..i + 1][..i] == turns[..i];
        TakeTurn(list, turns[i]);
        views := views + [list.View()];
      }
      assert turns[..|turns|] == turns;
    }
  }

  // One failed page anywhere loses the whole scan.
  lemma {:induction false} ScanFails(pages: seq<Page>, i: nat)
    requires i < |pages| && pages[i].ScanError?
    ensures Scanned(pages).None?
  {
    if i < |pages| - 1 {
      ScanFails(pages[..|pages| - 1], i);
    }
  }
}
