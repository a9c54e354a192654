// Publishing, announcing, resyncing, pruning and expiry, interleaved in any order.
//
// The store and its clock are shared; watchers only read the store and never each other, so
// one watcher beside arbitrary store activity stands for all of them. A watch loop is one
// goroutine: between the start of its scan and the end of it nothing else touches its list.
// Announcements may be lost, delayed, repeated or reordered without limit.
module RevocationProtocol {
  import opened Prelude
  import opened RevocationList
  import opened RevocationStore

  // A scan in progress: the keys it must still read, what it has read, and what had been
  // published when it started.
  datatype Scan = Scan(due: set<Key>, got: seq<Event>, known: set<Event>)

  datatype State = State(
    clock: int,
    entries: map<Key, Entry>,
    published: set<Event>,
    announced: set<Event>,
    list: ListState,
    scan: Option<Scan>)

  datatype Step =
    | Tick(elapsed: nat)
    | Record(event: Event)
    | Announce(event: Event)
    | Deliver(event: Event)
    | ScanStart
    | ScanRead(key: Key)
    | ScanReadFails(key: Key)
    | ScanDone
    | ScanFails
    | Prune
    | Restart

  const INITIAL := State(0, map[], {}, {}, EMPTY, None)

  predicate Enabled(s: State, step: Step) {
    match step
    case Tick(_) => true
    // An event is stamped before it is written.
    case Record(e) => e.at <= s.clock
    case Announce(e) => e in s.published
    case Deliver(e) => e in s.announced && s.scan.None?
    case ScanStart => s.scan.None?
    case ScanRead(_) => s.scan.Some?
    case ScanReadFails(_) => s.scan.Some?
    // A complete scan returns every key that was there throughout.
    case ScanDone => s.scan.Some? && s.scan.value.due == {}
    case ScanFails => s.scan.Some?
    case Prune => s.scan.None?
    case Restart => true
  }

  function Read(s: State, k: Key): seq<Event> {
    if k in s.entries && s.clock < s.entries[k].expires then [s.entries[k].event] else []
  }

  function Do(life: int, s: State, step: Step): State
    requires Enabled(s, step)
  {
    match step
    case Tick(elapsed) => s.(clock := s.clock + elapsed)
    case Record(e) =>
      s.(entries := s.entries[KeyOf(e) := Entry(e, s.clock + life)], published := s.published + {e})
    case Announce(e) => s.(announced := s.announced + {e})
    case Deliver(e) => s.(list := Turned(s.list, Message(Found(e)), life))
    case ScanStart => s.(scan := Some(Scan(s.entries.Keys, [], s.published)))
    case ScanRead(k) =>
      s.(scan := Some(s.scan.value.(due := s.scan.value.due - {k}, got := s.scan.value.got + Read(s, k))))
    case ScanReadFails(k) => s.(scan := Some(s.scan.value.(due := s.scan.value.due - {k})))
    case ScanDone => s.(list := Resynced(s.list, Some(s.scan.value.got)), scan := None)
    case ScanFails => s.(list := Resynced(s.list, None), scan := None)
    case Prune => s.(list := Turned(s.list, PruneDue(s.clock), life))
    case Restart => s.(list := EMPTY, scan := None)
  }

  // A run: states with the steps between them.
  datatype Run = Run(states: seq<State>, steps: seq<Step>)

  ghost predicate IsRun(life: int, r: Run) {
    && |r.states| == |r.steps| + 1
    && r.states[0] == INITIAL.(clock := r.states[0].clock)
    && forall i :: 0 <= i < |r.steps| ==>
         Enabled(r.states[i], r.steps[i]) && r.states[i + 1] == Do(life, r.states[i], r.steps[i])
  }

  // ---- What the environment is asked for ------------------------------------------------

  // Times published for one key never go back.
  predicate InOrder(s: State, step: Step) {
    step.Record? ==> forall p :: p in s.published && KeyOf(p) == KeyOf(step.event) ==> p.at <= step.event.at
  }

  // A key that is still alive answers its read.
  predicate ReadsAnswer(s: State, step: Step) {
    step.ScanReadFails? ==> Read(s, step.key) == []
  }

  ghost predicate Orderly(r: Run)
    requires |r.states| == |r.steps| + 1
  {
    forall i :: 0 <= i < |r.steps| ==> InOrder(r.states[i], r.steps[i]) && ReadsAnswer(r.states[i], r.steps[i])
  }

  ghost predicate NoRestart(r: Run, i: nat, j: nat)
    requires |r.states| == |r.steps| + 1
  {
    forall k :: i <= k < j && k < |r.steps| ==> !r.steps[k].Restart?
  }

  // The token lives no longer than an entry, and a session event naming it was stamped after
  // the token was minted.
  predicate Bounded(life: int, published: set<Event>, t: Token) {
    && t.exp - t.iat <= life
    && forall e :: e in published && e.kind == Session && e.id == t.id ==> t.iat <= e.at
  }

  predicate Live(s: State, t: Token) {
    s.clock < t.exp
  }

  // ---- The invariant --------------------------------------------------------------------

  // `e` is either answered for by `es`, or too old to matter to any token it covers.
  ghost predicate AnsweredBy(life: int, s: State, e: Event, es: seq<Event>) {
    || (exists i :: 0 <= i < |es| && KeyOf(es[i]) == KeyOf(e) && e.at <= es[i].at)
    || e.at + life <= s.clock
  }

  ghost predicate EntriesCurrent(life: int, s: State) {
    && (forall k :: k in s.entries ==>
          && s.entries[k].event in s.published && KeyOf(s.entries[k].event) == k)
    && (forall p :: p in s.published ==>
          && KeyOf(p) in s.entries
          && p.at <= s.entries[KeyOf(p)].event.at
          && p.at + life <= s.entries[KeyOf(p)].expires)
  }

  ghost predicate ListExplained(s: State) {
    && s.announced <= s.published
    && forall e :: Remembers(s.list, e) ==> e in s.published
  }

  ghost predicate ScanCurrent(life: int, s: State) {
    s.scan.Some? ==>
      var scan := s.scan.value;
      && scan.known <= s.published
      && (forall i :: 0 <= i < |scan.got| ==> scan.got[i] in s.published)
      && (forall e :: Remembers(s.list, e) ==> e in scan.known)
      && (forall p :: p in scan.known ==> KeyOf(p) in scan.due || AnsweredBy(life, s, p, scan.got))
  }

  ghost predicate Inv(life: int, s: State) {
    EntriesCurrent(life, s) && ListExplained(s) && ScanCurrent(life, s)
  }

  lemma AnsweredByMore(life: int, s: State, s': State, e: Event, es: seq<Event>, more: seq<Event>)
    requires AnsweredBy(life, s, e, es) && s.clock <= s'.clock
    ensures AnsweredBy(life, s', e, es + more)
  {
    if i :| 0 <= i < |es| && KeyOf(es[i]) == KeyOf(e) && e.at <= es[i].at {
      assert (es + more)[i] == es[i];
    }
  }

  lemma RememberedAfterResync(s: State, e: Event)
    requires s.scan.Some? && Remembers(Resynced(s.list, Some(s.scan.value.got)), e)
    ensures e in s.scan.value.got
  {
    ApplyAllRemembers(EMPTY, s.scan.value.got, e);
  }

  lemma ScanReadKeepsScan(life: int, s: State, step: Step)
    requires Inv(life, s) && Enabled(s, step) && (step.ScanRead? || step.ScanReadFails?) && ReadsAnswer(s, step)
    ensures ScanCurrent(life, Do(life, s, step))
  {
    var s' := Do(life, s, step);
    var scan, scan' := s.scan.value, s'.scan.value;
    assert scan'.got == scan.got + Read(s, step.key);
    forall p | p in scan'.known ensures KeyOf(p) in scan'.due || AnsweredBy(life, s', p, scan'.got) {
      if KeyOf(p) !in scan.due {
        AnsweredByMore(life, s, s', p, scan.got, Read(s, step.key));
      } else if KeyOf(p) == step.key && Read(s, step.key) != [] {
        assert scan'.got[|scan.got|] == s.entries[step.key].event;
      }
    }
  }

  lemma StepKeepsScan(life: int, s: State, step: Step)
    requires Inv(life, s) && Enabled(s, step) && ReadsAnswer(s, step)
    ensures ScanCurrent(life, Do(life, s, step))
  {
    var s' := Do(life, s, step);
    if step.ScanRead? || step.ScanReadFails? {
      ScanReadKeepsScan(life, s, step);
    } else if s'.scan.Some? && !step.ScanStart? {
      var scan := s.scan.value;
      forall p | p in scan.known && KeyOf(p) !in scan.due ensures AnsweredBy(life, s', p, scan.got) {
        AnsweredByMore(life, s, s', p, scan.got, []);
        assert scan.got + [] == scan.got;
      }
    }
  }

  lemma StepKeepsInv(life: int, s: State, step: Step)
    requires Inv(life, s) && Enabled(s, step) && InOrder(s, step) && ReadsAnswer(s, step)
    ensures Inv(life, Do(life, s, step))
  {
    StepKeepsScan(life, s, step);
    var s' := Do(life, s, step);
    forall e | Remembers(s'.list, e) ensures e in s'.published {
      match step {
        case Deliver(a) => assert e == a || Remembers(s.list, e);
        case ScanDone => RememberedAfterResync(s, e);
        case _ =>
      }
    }
  }

  lemma {:induction false} RunKeepsInv(life: int, r: Run, i: nat)
    requires IsRun(life, r) && Orderly(r) && i <= |r.steps|
    ensures Inv(life, r.states[i])
  {
    if i > 0 {
      RunKeepsInv(life, r, i - 1);
      StepKeepsInv(life, r.states[i - 1], r.steps[i - 1]);
    }
  }

  // ---- Refusals are justified -------------------------------------------------------------

  // A watcher refuses only tokens some published event covers. This needs no orderly
  // environment at all: losses, failed reads and late publishes can only forget.
  ghost predicate Sound(s: State) {
    && ListExplained(s)
    && (forall k :: k in s.entries ==> s.entries[k].event in s.published)
    && (s.scan.Some? ==> forall i :: 0 <= i < |s.scan.value.got| ==> s.scan.value.got[i] in s.published)
  }

  lemma StepKeepsSound(life: int, s: State, step: Step)
    requires Sound(s) && Enabled(s, step)
    ensures Sound(Do(life, s, step))
  {
    var s' := Do(life, s, step);
    forall e | Remembers(s'.list, e) ensures e in s'.published {
      match step {
        case Deliver(a) => assert e == a || Remembers(s.list, e);
        case ScanDone => RememberedAfterResync(s, e);
        case _ =>
      }
    }
  }

  lemma {:induction false} RunIsSound(life: int, r: Run, i: nat)
    requires IsRun(life, r) && i <= |r.steps|
    ensures Sound(r.states[i])
  {
    if i > 0 {
      RunIsSound(life, r, i - 1);
      StepKeepsSound(life, r.states[i - 1], r.steps[i - 1]);
    }
  }

  lemma RefusalIsJustified(life: int, r: Run, i: nat, t: Token)
    requires IsRun(life, r) && i <= |r.steps|
    requires Refuses(r.states[i].list, t)
    ensures exists e :: e in r.states[i].published && Covers(e, t)
  {
    RunIsSound(life, r, i);
    RefusesIffRemembered(r.states[i].list, t);
  }

  // ---- Refusals are permanent ---------------------------------------------------------------

  lemma PublishedGrows(life: int, r: Run, i: nat, j: nat)
    requires IsRun(life, r) && i <= j <= |r.steps|
    ensures r.states[i].published <= r.states[j].published && r.states[i].clock <= r.states[j].clock
    decreases j
  {
    if i < j {
      PublishedGrows(life, r, i, j - 1);
    }
  }

  // A completed scan refuses every live token covered by what was published when it started.
  lemma ScanCoversKnown(life: int, s: State, e: Event, t: Token)
    requires Inv(life, s) && Enabled(s, ScanDone)
    requires e in s.scan.value.known && Covers(e, t) && Live(s, t) && Bounded(life, s.published, t)
    ensures Refuses(Do(life, s, ScanDone).list, t)
  {
    var got := s.scan.value.got;
    assert AnsweredBy(life, s, e, got);
    var i :| 0 <= i < |got| && KeyOf(got[i]) == KeyOf(e) && e.at <= got[i].at;
    assert Covers(got[i], t);
    ReplaceIsTheSpecification(got, t);
  }

  lemma PruneKeepsLive(life: int, s: State, e: Event, t: Token)
    requires Remembers(s.list, e) && Covers(e, t) && Live(s, t) && Bounded(life, {e}, t)
    ensures Refuses(Pruned(s.list, s.clock - life), t)
  {
  }

  lemma StepKeepsRefusal(life: int, s: State, step: Step, t: Token)
    requires Inv(life, s) && Enabled(s, step) && !step.Restart?
    requires Refuses(s.list, t) && Live(s, t) && Bounded(life, s.published, t)
    ensures Refuses(Do(life, s, step).list, t)
  {
    RefusesIffRemembered(s.list, t);
    var e :| Remembers(s.list, e) && Covers(e, t);
    match step {
      case Deliver(a) => ApplyAddsCovered(s.list, a, t);
      case ScanDone => ScanCoversKnown(life, s, e, t);
      case Prune => PruneKeepsLive(life, s, e, t);
      case _ =>
    }
  }

  lemma BoundedEarlier(life: int, earlier: set<Event>, later: set<Event>, t: Token)
    requires earlier <= later && Bounded(life, later, t)
    ensures Bounded(life, earlier, t)
  {
  }

  lemma {:induction false} RunStepKeepsRefusal(life: int, r: Run, i: nat, t: Token)
    requires IsRun(life, r) && Orderly(r) && i < |r.steps| && !r.steps[i].Restart?
    requires Refuses(r.states[i].list, t)
    requires Live(r.states[i + 1], t) && Bounded(life, r.states[i + 1].published, t)
    ensures Live(r.states[i], t) && Bounded(life, r.states[i].published, t)
    ensures Refuses(r.states[i + 1].list, t)
  {
    PublishedGrows(life, r, i, i + 1);
    BoundedEarlier(life, r.states[i].published, r.states[i + 1].published, t);
    RunKeepsInv(life, r, i);
    StepKeepsRefusal(life, r.states[i], r.steps[i], t);
  }

  // Once refused, refused until expiry, whatever happens in between short of a restart.
  lemma {:induction false} RefusalIsPermanent(life: int, r: Run, i: nat, j: nat, t: Token)
    requires IsRun(life, r) && Orderly(r) && i <= j <= |r.steps| && NoRestart(r, i, j)
    requires Refuses(r.states[i].list, t)
    requires Live(r.states[j], t) && Bounded(life, r.states[j].published, t)
    ensures Refuses(r.states[j].list, t)
    decreases j
  {
    if i < j {
      PublishedGrows(life, r, j - 1, j);
      BoundedEarlier(life, r.states[j - 1].published, r.states[j].published, t);
      RefusalIsPermanent(life, r, i, j - 1, t);
      RunStepKeepsRefusal(life, r, j - 1, t);
    }
  }

  // ---- A resync repairs every loss -----------------------------------------------------------

  // One complete scan: it starts at step `a` and finishes at step `b` with nothing ending it between.
  ghost predicate CompleteScan(r: Run, a: nat, b: nat)
    requires |r.states| == |r.steps| + 1
  {
    && a < b < |r.steps| && r.steps[a].ScanStart? && r.steps[b].ScanDone?
    && forall k :: a < k < b ==> !r.steps[k].ScanFails? && !r.steps[k].Restart? && !r.steps[k].ScanDone?
  }

  lemma {:induction false} ScanRemembersStart(life: int, r: Run, a: nat, b: nat, k: nat)
    requires IsRun(life, r) && CompleteScan(r, a, b) && a < k <= b
    ensures r.states[k].scan.Some? && r.states[k].scan.value.known == r.states[a].published
    decreases k
  {
    if k > a + 1 {
      ScanRemembersStart(life, r, a, b, k - 1);
    }
  }

  // Everything published before a scan starts is enforced from the moment it completes, even
  // if every announcement was lost; and stays enforced until the token expires.
  lemma ResyncCatchesUp(life: int, r: Run, a: nat, b: nat, j: nat, e: Event, t: Token)
    requires IsRun(life, r) && Orderly(r) && CompleteScan(r, a, b)
    requires b < j <= |r.steps| && NoRestart(r, b + 1, j)
    requires e in r.states[a].published && Covers(e, t)
    requires Live(r.states[j], t) && Bounded(life, r.states[j].published, t)
    ensures Refuses(r.states[j].list, t)
  {
    PublishedGrows(life, r, b, j);
    PublishedGrows(life, r, b + 1, j);
    RunKeepsInv(life, r, b);
    ScanRemembersStart(life, r, a, b, b);
    ScanCoversKnown(life, r.states[b], e, t);
    RefusalIsPermanent(life, r, b + 1, j, t);
  }

  // Scans start at least every `period`, and one that starts is complete within another.
  ghost predicate ScansEvery(r: Run, period: int)
    requires |r.states| == |r.steps| + 1
  {
    && (forall i: nat, j: nat :: i <= j <= |r.steps| && r.states[i].clock + period <= r.states[j].clock ==>
          StartsBetween(r, i, j, period))
    && (forall a: nat, j: nat ::
          a < j <= |r.steps| && r.steps[a].ScanStart? && r.states[a].clock + period <= r.states[j].clock ==>
          exists b: nat :: b < j && CompleteScan(r, a, b))
  }

  ghost predicate StartsBetween(r: Run, i: nat, j: nat, period: int)
    requires |r.states| == |r.steps| + 1 && j <= |r.steps|
  {
    exists a: nat :: i <= a < j && r.steps[a].ScanStart? && r.states[a].clock <= r.states[i].clock + period
  }

  // So with the store reachable staleness is bounded, even if every announcement is lost: what is
  // published by one instant is enforced two periods later.
  lemma {:induction false} StaleForTwoPeriods(life: int, r: Run, period: nat, i: nat, j: nat, e: Event, t: Token)
    requires IsRun(life, r) && Orderly(r) && ScansEvery(r, period)
    requires i <= j <= |r.steps| && NoRestart(r, i, j) && r.states[i].clock + 2 * period <= r.states[j].clock
    requires e in r.states[i].published && Covers(e, t)
    requires Live(r.states[j], t) && Bounded(life, r.states[j].published, t)
    ensures Refuses(r.states[j].list, t)
  {
    assert StartsBetween(r, i, j, period);
    var a: nat :| i <= a < j && r.steps[a].ScanStart? && r.states[a].clock <= r.states[i].clock + period;
    var b: nat :| b < j && CompleteScan(r, a, b);
    PublishedGrows(life, r, i, a);
    ResyncCatchesUp(life, r, a, b, j, e, t);
  }

  // A delivered announcement is enforced at once, and stays enforced.
  lemma DeliveryIsEnforced(life: int, r: Run, d: nat, j: nat, t: Token)
    requires IsRun(life, r) && Orderly(r) && d < j <= |r.steps| && NoRestart(r, d + 1, j)
    requires r.steps[d].Deliver? && Covers(r.steps[d].event, t)
    requires Live(r.states[j], t) && Bounded(life, r.states[j].published, t)
    ensures Refuses(r.states[j].list, t)
  {
    ApplyAddsCovered(r.states[d].list, r.steps[d].event, t);
    RefusalIsPermanent(life, r, d + 1, j, t);
  }

  // After a resync the list is the simple specification, read against the whole publication
  // log: with nothing published during the scan, refusing and being covered coincide.
  lemma ResyncedListIsExact(life: int, r: Run, a: nat, b: nat, t: Token)
    requires IsRun(life, r) && Orderly(r) && CompleteScan(r, a, b)
    requires r.states[b].published == r.states[a].published
    requires Live(r.states[b + 1], t) && Bounded(life, r.states[b + 1].published, t)
    ensures Refuses(r.states[b + 1].list, t) <==> exists e :: e in r.states[b + 1].published && Covers(e, t)
  {
    if Refuses(r.states[b + 1].list, t) {
      RefusalIsJustified(life, r, b + 1, t);
    }
    if e :| e in r.states[b + 1].published && Covers(e, t) {
      ResyncCatchesUp(life, r, a, b, b + 1, e, t);
    }
  }

  // ---- The steps are the loop's and the store's -----------------------------------------------------

  function Gets(events: seq<Event>): seq<Get> {
    seq(|events|, i requires 0 <= i < |events| => Found(events[i]))
  }

  function TurnsAfter(s: State, step: Step, turns: seq<Turn>): seq<Turn>
    requires Enabled(s, step)
  {
    match step
    case Deliver(e) => turns + [Message(Found(e))]
    case ScanDone => turns + [ResyncDue([Page(Gets(s.scan.value.got))])]
    case ScanFails => turns + [ResyncDue([ScanError])]
    case Prune => turns + [PruneDue(s.clock)]
    case Restart => []
    case _ => turns
  }

  // The turns the watch loop has taken by the k-th state of a run, since it last started.
  ghost function TurnsOf(life: int, r: Run, k: nat): seq<Turn>
    requires IsRun(life, r) && k <= |r.steps|
  {
    if k == 0 then [] else TurnsAfter(r.states[k - 1], r.steps[k - 1], TurnsOf(life, r, k - 1))
  }

  lemma {:induction false} EventsOfGets(events: seq<Event>)
    ensures Events(Gets(events)) == events
  {
    if events != [] {
      var front := events[..|events| - 1];
      EventsOfGets(front);
      assert Gets(events)[..|events| - 1] == Gets(front);
    }
  }

  lemma {:induction false} OnePage(events: seq<Event>)
    ensures Scanned([Page(Gets(events))]) == Some(events)
    ensures Scanned([ScanError]) == None
  {
    EventsOfGets(events);
    var page, failed := Page(Gets(events)), ScanError;
    assert [page][..0] == [] && [failed][..0] == [] && [] + events == events;
  }

  lemma OneTurnMore(l: ListState, turns: seq<Turn>, turn: Turn, life: int)
    ensures TurnedAll(l, turns + [turn], life) == Turned(TurnedAll(l, turns, life), turn, life)
  {
    assert (turns + [turn])[..|turns|] == turns;
  }

  lemma {:induction false} StepIsATurn(life: int, s: State, step: Step, turns: seq<Turn>)
    requires Enabled(s, step) && s.list == TurnedAll(EMPTY, turns, life)
    ensures Do(life, s, step).list == TurnedAll(EMPTY, TurnsAfter(s, step, turns), life)
  {
    match step {
      case Deliver(e) => OneTurnMore(EMPTY, turns, Message(Found(e)), life);
      case ScanDone =>
        OnePage(s.scan.value.got);
        OneTurnMore(EMPTY, turns, ResyncDue([Page(Gets(s.scan.value.got))]), life);
      case ScanFails =>
        OnePage([]);
        OneTurnMore(EMPTY, turns, ResyncDue([ScanError]), life);
      case Prune => OneTurnMore(EMPTY, turns, PruneDue(s.clock), life);
      case _ =>
    }
  }

  // In every run, orderly or not, the list is what the loop makes of its turns.
  lemma {:induction false} RunIsWatched(life: int, r: Run, k: nat)
    requires IsRun(life, r) && k <= |r.steps|
    ensures r.states[k].list == TurnedAll(EMPTY, TurnsOf(life, r, k), life)
  {
    if k > 0 {
      RunIsWatched(life, r, k - 1);
      StepIsATurn(life, r.states[k - 1], r.steps[k - 1], TurnsOf(life, r, k - 1));
    }
  }

  lemma {:induction false} FirstTurn(l: ListState, turns: seq<Turn>, life: int)
    requires turns != []
    ensures TurnedAll(l, turns, life) == TurnedAll(Turned(l, turns[0], life), turns[1..], life)
  {
    if |turns| == 1 {
      assert turns[..0] == [];
    } else {
      FirstTurn(l, turns[..|turns| - 1], life);
      assert turns[..|turns| - 1][1..] == turns[1..][..|turns| - 2];
    }
  }

  // So a new list watched through the turns of a run, the first of them a resync, ends as the run
  // does: what is proved of runs is proved of the loop.
  method WatchRun(store: Store, list: List, ghost r: Run, turns: seq<Turn>)
    requires IsRun(store.maxTokenLife, r) && turns == TurnsOf(store.maxTokenLife, r, |r.steps|)
    requires list.View() == EMPTY && turns != [] && turns[0].ResyncDue?
    modifies list
    ensures list.View() == r.states[|r.steps|].list
  {
    ghost var _ := store.Watch(list, turns[0].resync, turns[1..]);
    FirstTurn(EMPTY, turns, store.maxTokenLife);
    RunIsWatched(store.maxTokenLife, r, |r.steps|);
  }

  // A recorded event answers reads of its own key for exactly the entry's life.
  lemma KeyLivesExactly(life: int, s: State, e: Event, elapsed: nat)
    requires Enabled(s, Record(e))
    ensures
      var later := Do(life, Do(life, s, Record(e)), Tick(elapsed));
      && later.clock == s.clock + elapsed && e in later.published
      && Read(later, Key(e.kind, e.id)) == (if elapsed < life then [e] else [])
      && forall k :: k != Key(e.kind, e.id) && elapsed == 0 ==> Read(later, k) == Read(s, k)
  {
  }

  // What is recorded can be announced, and what is announced delivered, to any loop not scanning.
  lemma PublishedCanArrive(life: int, s: State, e: Event, t: Token)
    requires Enabled(s, Record(e)) && s.scan.None?
    ensures Enabled(Do(life, s, Record(e)), Announce(e))
    ensures
      var told := Do(life, Do(life, s, Record(e)), Announce(e));
      && Enabled(told, Deliver(e))
      && (Refuses(Do(life, told, Deliver(e)).list, t) <==> Refuses(s.list, t) || Covers(e, t))
  {
    ApplyAddsCovered(s.list, e, t);
  }

  // Any scan under way may fail, and then decides nothing.
  lemma AnyScanMayFail(life: int, s: State, t: Token)
    requires s.scan.Some?
    ensures Enabled(s, ScanFails) && Do(life, s, ScanFails).scan.None? && Do(life, s, ScanFails).list.degraded
    ensures Refuses(Do(life, s, ScanFails).list, t) <==> Refuses(s.list, t)
  {
  }

  // A restarted watcher has forgotten everything.
  lemma RestartForgets(life: int, s: State, t: Token)
    ensures !Refuses(Do(life, s, Restart).list, t) && Do(life, s, Restart).scan.None?
  {
  }
}
