// Where the revocation protocol stops holding: each assumption the theorems make of the
// environment, with a run that shows it cannot be dropped, and the token lifetimes that fit.
module RevocationLimits {
  import opened Prelude
  import opened RevocationList
  import opened RevocationStore
  import opened RevocationProtocol

  const SECOND := 1_000_000_000

  // Token times are whole seconds, rounded down (RFC 7519, sections 4.1.4 and 4.1.6).
  function Floor(t: int): int {
    t / SECOND * SECOND
  }

  function Ceiling(t: int): int {
    (t + SECOND - 1) / SECOND * SECOND
  }

  lemma FloorIs(t: int)
    ensures Floor(t) <= t < Floor(t) + 1_000_000_000 && Floor(t) % 1_000_000_000 == 0
    ensures Ceiling(t) - 1_000_000_000 < t <= Ceiling(t) && Ceiling(t) % 1_000_000_000 == 0
  {
  }

  function Minted(now: int, ttl: int, id: string, user: string, company: string, singleDevice: bool): Token {
    Token(id, user, company, singleDevice, Floor(now), Floor(now + ttl))
  }

  lemma FloorOfSum(now: int, ttl: int)
    ensures Floor(now + ttl) - Floor(now) <= Ceiling(ttl)
  {
  }

  // A token never outlives an entry exactly when its lifetime, rounded UP to a second, is at
  // most the entry's: a configured lifetime equal to the entry's is enough when it is whole.
  lemma MintedFitsIffRoundedLifeFits(ttl: int, life: int)
    ensures (forall now {:trigger Floor(now)} :: Floor(now + ttl) - Floor(now) <= life) <==> Ceiling(ttl) <= life
  {
    if Ceiling(ttl) <= life {
      forall now ensures Floor(now + ttl) - Floor(now) <= life {
        FloorOfSum(now, ttl);
      }
    } else {
      var now := SECOND - 1;
      assert Floor(now) == 0;
      assert Floor(now + ttl) == Ceiling(ttl);
    }
  }

  // A user cutoff refuses every token minted before it; and, because of the rounding, also
  // those minted later within the cutoff's own second. From the next second on it refuses none.
  lemma CutoffRefusesUntilItsSecondEnds(at: int, now: int, ttl: int, id: string, user: string, company: string,
          single: bool)
    requires user != ""
    ensures Covers(Event(User, user, at), Minted(now, ttl, id, user, company, single)) <==> Floor(now) < at
    ensures now < at ==> Floor(now) < at
    ensures Floor(at) < Floor(now) ==> at <= Floor(now)
  {
  }

  // ---- Assumptions that cannot be dropped --------------------------------------------------
  // From any state, reachable or not, with no scan in progress.

  predicate Runs(life: int, s: State, steps: seq<Step>)
    decreases |steps|
  {
    steps == [] || (Enabled(s, steps[0]) && Runs(life, Do(life, s, steps[0]), steps[1..]))
  }

  function After(life: int, s: State, steps: seq<Step>): State
    requires Runs(life, s, steps)
    decreases |steps|
  {
    if steps == [] then s else After(life, Do(life, s, steps[0]), steps[1..])
  }

  lemma {:induction false} Prepend(life: int, s: State, step: Step, rest: seq<Step>) returns (steps: seq<Step>)
    requires Enabled(s, step) && Runs(life, Do(life, s, step), rest)
    ensures steps == [step] + rest && Runs(life, s, steps)
    ensures After(life, s, steps) == After(life, Do(life, s, step), rest)
  {
    steps := [step] + rest;
    assert steps[1..] == rest;
  }

  // Reads every key still due, except that reading `skip` fails; what it collects is in the store
  // under some other key.
  lemma {:induction false} ReadRest(life: int, s: State, skip: Option<Key>) returns (steps: seq<Step>)
    requires s.scan.Some?
    ensures Runs(life, s, steps)
    ensures forall i :: 0 <= i < |steps| ==>
      steps[i].ScanRead? || (steps[i].ScanReadFails? && skip == Some(steps[i].key))
    ensures
      var end := After(life, s, steps);
      && end == s.(scan := end.scan) && end.scan.Some? && end.scan.value.due == {}
      && forall e :: e in end.scan.value.got ==> e in s.scan.value.got || HeldElsewhere(s, skip, e)
    decreases s.scan.value.due
  {
    if s.scan.value.due == {} {
      steps := [];
    } else {
      var k :| k in s.scan.value.due;
      var step := if skip == Some(k) then ScanReadFails(k) else ScanRead(k);
      var next := Do(life, s, step);
      assert skip != Some(k) ==> forall e :: e in Read(s, k) ==> HeldElsewhere(s, skip, e);
      var rest := ReadRest(life, next, skip);
      forall e | HeldElsewhere(next, skip, e) ensures HeldElsewhere(s, skip, e) {
        var k' :| k' in next.entries && Some(k') != skip && next.entries[k'].event == e;
        assert k' in s.entries;
      }
      steps := Prepend(life, s, step, rest);
    }
  }

  ghost predicate HeldElsewhere(s: State, skip: Option<Key>, e: Event) {
    exists k :: k in s.entries && Some(k) != skip && s.entries[k].event == e
  }

  // A whole resync: afterwards the list refuses nothing that no other key's entry covers.
  lemma {:induction false} WholeResync(life: int, s: State, skip: Option<Key>, t: Token) returns (steps: seq<Step>)
    requires s.scan.None? && forall k :: k in s.entries && Some(k) != skip ==> !Covers(s.entries[k].event, t)
    ensures Runs(life, s, steps)
    ensures forall i :: 0 <= i < |steps| ==>
      !steps[i].Record? && !steps[i].Restart? && (steps[i].ScanReadFails? ==> skip == Some(steps[i].key))
    ensures !Refuses(After(life, s, steps).list, t) && After(life, s, steps).clock == s.clock
  {
    var s1 := Do(life, s, ScanStart);
    var read := ReadRest(life, s1, skip);
    var s2 := After(life, s1, read);
    var s3 := Do(life, s2, ScanDone);
    forall i | 0 <= i < |s2.scan.value.got| ensures !Covers(s2.scan.value.got[i], t) {
      assert s2.scan.value.got[i] in s2.scan.value.got;
      assert HeldElsewhere(s1, skip, s2.scan.value.got[i]);
    }
    ReplaceIsTheSpecification(s2.scan.value.got, t);
    steps := Chain(life, s1, read, ScanDone);
    steps := Prepend(life, s, ScanStart, steps);
  }

  lemma {:induction false} Chain(life: int, s: State, front: seq<Step>, last: Step) returns (steps: seq<Step>)
    requires Runs(life, s, front) && Enabled(After(life, s, front), last)
    ensures steps == front + [last] && Runs(life, s, steps)
    ensures After(life, s, steps) == Do(life, After(life, s, front), last)
    decreases |front|
  {
    steps := front + [last];
    if front == [] {
      assert steps[1..] == [];
      assert After(life, Do(life, s, last), []) == Do(life, s, last);
    } else {
      var rest := Chain(life, Do(life, s, front[0]), front[1..], last);
      assert steps[1..] == rest;
    }
  }

  // Two publishers that write in the other order than they read the clock: an event that does not
  // cover the token, recorded over the only entry that does, lets it in at the next resync.
  lemma {:induction false} LatePublishUnrevokes(life: int, s: State, e: Event, t: Token) returns (steps: seq<Step>)
    requires s.scan.None? && e.at <= s.clock && !Covers(e, t)
    requires forall k :: k in s.entries && k != KeyOf(e) ==> !Covers(s.entries[k].event, t)
    ensures Runs(life, s, steps) && steps != [] && steps[0] == Record(e)
    ensures forall i :: 0 < i < |steps| ==> !steps[i].Record? && !steps[i].Restart? && !steps[i].ScanReadFails?
    ensures !Refuses(After(life, s, steps).list, t) && After(life, s, steps).clock == s.clock
  {
    var s1 := Do(life, s, Record(e));
    var rest := WholeResync(life, s1, None, t);
    steps := Prepend(life, s, Record(e), rest);
  }

  // A read that fails for any reason other than expiry is skipped like an expired key: failing on
  // the only entry that covers the token lets it in at that resync.
  lemma {:induction false} FailedReadUnrevokes(life: int, s: State, k: Key, t: Token) returns (steps: seq<Step>)
    requires s.scan.None? && forall k' :: k' in s.entries && k' != k ==> !Covers(s.entries[k'].event, t)
    ensures Runs(life, s, steps)
    ensures forall i :: 0 <= i < |steps| ==>
      !steps[i].Record? && !steps[i].Restart? && (steps[i].ScanReadFails? ==> steps[i].key == k)
    ensures !Refuses(After(life, s, steps).list, t) && After(life, s, steps).clock == s.clock
  {
    steps := WholeResync(life, s, Some(k), t);
  }

  // Pruning at the last instant of a token's life goes on refusing it exactly when some remembered
  // event that covers it is recent enough: a token longer than an entry's life, or one minted after
  // its session was ended, is let in again while it still lives.
  lemma {:induction false} PrunedBeforeExpiryIff(life: int, s: State, t: Token) returns (steps: seq<Step>)
    requires s.scan.None? && s.clock < t.exp
    ensures steps == [Tick(t.exp - 1 - s.clock), RevocationProtocol.Prune] && Runs(life, s, steps)
    ensures Live(After(life, s, steps), t)
    ensures Refuses(After(life, s, steps).list, t) <==>
      exists e :: Remembers(s.list, e) && Covers(e, t) && e.at + life >= t.exp - 1
  {
    var s1 := Do(life, s, Tick(t.exp - 1 - s.clock));
    var s2 := Do(life, s1, RevocationProtocol.Prune);
    steps := Prepend(life, s1, RevocationProtocol.Prune, []);
    steps := Prepend(life, s, Tick(t.exp - 1 - s.clock), steps);
    RefusesIffRemembered(s2.list, t);
    forall e ensures Remembers(s2.list, e) <==> Remembers(s.list, e) && e.at >= t.exp - 1 - life {
      PruneForgetsOnlyOld(s.list, t.exp - 1 - life, e);
    }
  }
}
