// Moving old audit rows to cold storage, one file per day (internal/archive/archive.go).
module Archive {

  const DAY := 86_400_000_000_000

  // A row by its id and the instant it was created, in nanoseconds since the year 1.
  datatype Row = Row(id: nat, at: nat)

  datatype File = File(day: nat, rows: seq<Row>)

  function DayOf(at: nat): nat {
    at / DAY * DAY
  }

  function Concat(files: seq<File>): seq<Row> {
    if files == [] then [] else Concat(files[..|files| - 1]) + files[|files| - 1].rows
  }

  function MaxId(rows: seq<Row>): nat {
    if rows == [] then 0
    else
      var m, last := MaxId(rows[..|rows| - 1]), rows[|rows| - 1].id;
      if last > m then last else m
  }

  type Table = map<nat, nat>

  predicate Holds(t: Table, r: Row) {
    r.id in t && t[r.id] == r.at
  }

  ghost predicate InTimeOrder(batch: seq<Row>) {
    forall i, j :: 0 <= i < j < |batch| ==> batch[i].at <= batch[j].at
  }

  // What the reading query may return: cold rows in order of creation, cut off at the limit,
  // rows created at one instant in any order.
  ghost predicate IsBatch(t: Table, batch: seq<Row>, cutoff: nat, limit: nat) {
    && |batch| <= limit
    && (forall i :: 0 <= i < |batch| ==> Holds(t, batch[i]) && batch[i].at < cutoff)
    && InTimeOrder(batch)
    && (forall r: Row, i :: Holds(t, r) && r.at < cutoff && r !in batch && 0 <= i < |batch| ==> batch[i].at <= r.at)
    && (|batch| < limit ==> forall r: Row :: Holds(t, r) && r.at < cutoff ==> r in batch)
  }

  // Each file holds rows of its own day only, and days strictly increase.
  ghost predicate OneDayEach(files: seq<File>) {
    && (forall k :: 0 <= k < |files| ==> files[k].rows != [])
    && (forall k, r :: 0 <= k < |files| && r in files[k].rows ==> DayOf(r.at) == files[k].day)
    && (forall j, k :: 0 <= j < k < |files| ==> files[j].day < files[k].day)
  }

  // The delete after a file: its whole day, up to the highest id in it.
  predicate Swept(f: File, r: Row) {
    r.id <= MaxId(f.rows) && f.day <= r.at < f.day + DAY
  }

  function Remaining(t: Table, f: File): Table {
    map id | id in t && !Swept(f, Row(id, t[id])) :: t[id]
  }

  ghost predicate SweptByAny(files: seq<File>, r: Row) {
    exists k :: 0 <= k < |files| && Swept(files[k], r)
  }

  datatype Fault = Fine | EncodeFails | PutFails | DeleteFails

  datatype Summary = Summary(rows: nat, files: nat)

  // Whether a flush goes through: a dry run stores nothing, and only a run that deletes can fail to.
  predicate Passes(dryRun: bool, keepRows: bool, fault: Fault) {
    fault.Fine? || (fault.PutFails? && dryRun) || (fault.DeleteFails? && (dryRun || keepRows))
  }

  // The first n flushes go through.
  predicate AllPass(dryRun: bool, keepRows: bool, faults: nat -> Fault, n: nat) {
    n == 0 || (AllPass(dryRun, keepRows, faults, n - 1) && Passes(dryRun, keepRows, faults(n - 1)))
  }

  lemma {:induction false} OneFailureIsEnough(dryRun: bool, keepRows: bool, faults: nat -> Fault, k: nat, n: nat)
    requires k < n && !Passes(dryRun, keepRows, faults(k))
    ensures !AllPass(dryRun, keepRows, faults, n)
  {
    if k < n - 1 {
      OneFailureIsEnough(dryRun, keepRows, faults, k, n - 1);
    }
  }

  class Archiver {
    var table: Table
    var files: seq<File>
    const keepRows: bool
    const dryRun: bool

    constructor (table: Table, keepRows: bool, dryRun: bool)
      ensures this.table == table && files == [] && this.keepRows == keepRows && this.dryRun == dryRun
    {
      this.table, files := table, [];
      this.keepRows, this.dryRun := keepRows, dryRun;
    }

    predicate Deletes() {
      !dryRun && !keepRows
    }

    method Flush(day: nat, rows: seq<Row>, maxId: nat, fault: Fault) returns (ok: bool)
      requires maxId == MaxId(rows)
      modifies this
      ensures rows == [] ==> ok && table == old(table) && files == old(files)
      ensures rows != [] ==> ok == Passes(dryRun, keepRows, fault)
      ensures rows != [] ==>
        (ok <==> match fault
          case Fine => true
          case EncodeFails => false
          case PutFails => dryRun
          case DeleteFails => dryRun || keepRows)
      ensures files ==
        if rows == [] || dryRun || fault.EncodeFails? || fault.PutFails? then old(files)
        else old(files) + [File(day, rows)]
      ensures table ==
        if rows != [] && Deletes() && fault.Fine? then Remaining(old(table), File(day, rows)) else old(table)
    {
      if |rows| == 0 {
        return true;
      }
      if fault.EncodeFails? {
        return false;
      }
      if dryRun {
        return true;
      }
      if fault.PutFails? {
        return false;
      }
      files := files + [File(day, rows)];
      if !keepRows {
        if fault.DeleteFails? {
          return false;
        }
        table := map id | id in table && !(id <= maxId && day <= table[id] < day + DAY) :: table[id];
      }
      return true;
    }

    // How far a run has got: the days grouped so far, and what of `all` their deletes have left.
    ghost predicate Progress(all: Table, before: seq<File>, groups: seq<File>, removed: nat)
      reads this
    {
      && OneDayEach(groups) && removed <= |groups|
      && files == (if dryRun then before else before + groups)
      && LeftBy(table, all, groups[..removed])
    }

    // A flush, with the bookkeeping of what it wrote and deleted.
    method FlushGroup(day: nat, rows: seq<Row>, maxId: nat, fault: Fault, ghost all: Table, ghost before: seq<File>,
            ghost groups: seq<File>, ghost removed: nat)
      returns (ok: bool, ghost groups': seq<File>, ghost removed': nat)
      requires maxId == MaxId(rows) && (forall r :: r in rows ==> DayOf(r.at) == day)
      requires forall k :: 0 <= k < |groups| ==> groups[k].day < day
      requires Progress(all, before, groups, removed) && removed == if Deletes() then |groups| else 0
      modifies this
      ensures Progress(all, before, groups', removed')
      ensures ok <==> rows == [] || Passes(dryRun, keepRows, fault)
      ensures !ok ==> |groups'| == |groups| + (if fault.DeleteFails? then 1 else 0) && removed' == removed
      ensures groups' == groups || (rows != [] && groups' == groups + [File(day, rows)])
      ensures ok ==> removed' == (if Deletes() then |groups'| else 0) && (rows != [] ==> groups' != groups)
    {
      ghost var old' := table;
      ok := Flush(day, rows, maxId, fault);
      groups', removed' := groups, removed;
      if rows != [] && (ok || fault.DeleteFails?) {
        groups' := groups + [File(day, rows)];
        AppendKeepsDays(groups, File(day, rows));
        if ok {
          SweepOneMore(all, old', table, groups, File(day, rows), removed, Deletes());
          removed' := if Deletes() then removed + 1 else removed;
        } else {
          assert groups'[..removed] == groups[..removed];
        }
      }
    }

    // Flushes the current day and counts it.
    method FlushDay(batch: seq<Row>, i: nat, day: nat, rows: seq<Row>, maxId: nat, fault: Fault, counted: Summary,
            ghost all: Table, ghost before: seq<File>, ghost groups: seq<File>, ghost removed: nat)
      returns (ok: bool, sum: Summary, ghost groups': seq<File>, ghost removed': nat)
      requires InTimeOrder(batch) && Reading(batch, i, day, rows, maxId, groups)
      requires (i < |batch| ==> DayOf(batch[i].at) != day) && (rows == [] ==> groups == [])
      requires Progress(all, before, groups, removed) && removed == if Deletes() then |groups| else 0
      requires counted == Summary(|Concat(groups)|, |groups|)
      modifies this
      ensures Progress(all, before, groups', removed')
      ensures Concat(groups') <= batch && WholeDays(batch, |Concat(groups')|)
      ensures ok <==> rows == [] || Passes(dryRun, keepRows, fault)
      ensures !ok ==>
        sum == counted && |groups'| == |groups| + (if fault.DeleteFails? then 1 else 0) && removed' == removed
      ensures ok ==>
        && |groups'| == |groups| + (if rows == [] then 0 else 1)
        && removed' == (if Deletes() then |groups'| else 0)
        && sum == Summary(|Concat(groups')|, |groups'|)
        && Reading(batch, i, if i < |batch| then DayOf(batch[i].at) else 0, [], 0, groups')
    {
      ok, groups', removed' := FlushGroup(day, rows, maxId, fault, all, before, groups, removed);
      sum := if rows == [] || !ok then counted else Summary(counted.rows + |rows|, counted.files + 1);
      AppendGroup(groups, File(day, rows));
      StoppedAt(batch, i, day, rows, maxId, groups, groups');
      if ok {
        DayIsOver(batch, i, day, rows, maxId, groups, groups');
      }
    }

    // Goes through the batch, flushing whenever the day changes; the last day is left open.
    method GroupByDay(batch: seq<Row>, faults: nat -> Fault)
      returns (ok: bool, sum: Summary, day: nat, rows: seq<Row>, maxId: nat, ghost groups: seq<File>,
            ghost removed: nat)
      requires InTimeOrder(batch)
      modifies this
      // It stops at the first flush that does not go through.
      ensures ok ==>
        && Grouped(old(table), old(files), batch, |batch|, faults, sum, day, rows, maxId, groups, removed)
        && (rows == [] ==> groups == [])
      ensures !ok ==> Stopped(old(table), old(files), batch, faults, sum, groups, removed)
    {
      ghost var all := table;
      ghost var before := files;
      ok, day, rows, maxId, sum := true, 0, [], 0, Summary(0, 0);
      groups, removed := [], 0;
      for i := 0 to |batch|
        invariant ok && Grouped(all, before, batch, i, faults, sum, day, rows, maxId, groups, removed)
        invariant rows == [] ==> i == 0 && groups == []
      {
        ok, sum, day, rows, maxId, groups, removed :=
          TakeNext(batch, i, faults, sum, day, rows, maxId, all, before, groups, removed);
        if !ok {
          return;
        }
      }
      assert batch[..|batch|] == batch;
    }

    // One row: a flush first if its day is another, then the row joins the open day.
    method TakeNext(batch: seq<Row>, i: nat, faults: nat -> Fault, counted: Summary, open: nat, rows: seq<Row>,
            maxId: nat, ghost all: Table, ghost before: seq<File>, ghost groups: seq<File>, ghost removed: nat)
      returns (ok: bool, sum: Summary, day: nat, rows': seq<Row>, maxId': nat, ghost groups': seq<File>,
            ghost removed': nat)
      requires InTimeOrder(batch) && i < |batch| && (rows == [] ==> i == 0 && groups == [])
      requires Grouped(all, before, batch, i, faults, counted, open, rows, maxId, groups, removed)
      modifies this
      ensures ok ==>
        Grouped(all, before, batch, i + 1, faults, sum, day, rows', maxId', groups', removed') && rows' != []
      ensures !ok ==> Stopped(all, before, batch, faults, sum, groups', removed')
    {
      var r := batch[i];
      ok, sum, day, rows', maxId', groups', removed' := true, counted, open, rows, maxId, groups, removed;
      if DayOf(r.at) != day {
        ok, sum, groups', removed' := EndDay(batch, i, faults, sum, day, rows, maxId, all, before, groups, removed);
        if !ok {
          return;
        }
        day, rows', maxId' := DayOf(r.at), [], 0;
      }
      TakeCounted(batch, i, day, rows', maxId', groups', sum.files);
      rows', maxId' := rows' + [r], if r.id > maxId' then r.id else maxId';
    }

    // Where a run that does not go through has got to.
    ghost predicate Stopped(all: Table, before: seq<File>, batch: seq<Row>, faults: nat -> Fault, sum: Summary,
            groups: seq<File>, removed: nat)
      reads this
    {
      && Progress(all, before, groups, removed) && Concat(groups) <= batch && WholeDays(batch, |Concat(groups)|)
      && AllPass(dryRun, keepRows, faults, sum.files) && sum.files < Days(batch)
      && !Passes(dryRun, keepRows, faults(sum.files))
      && |groups| == sum.files + (if faults(sum.files).DeleteFails? then 1 else 0)
      && removed == (if Deletes() then sum.files else 0)
    }

    // The flush at a change of day.
    method EndDay(batch: seq<Row>, i: nat, faults: nat -> Fault, counted: Summary, day: nat, rows: seq<Row>, maxId: nat,
            ghost all: Table, ghost before: seq<File>, ghost groups: seq<File>, ghost removed: nat)
      returns (ok: bool, sum: Summary, ghost groups': seq<File>, ghost removed': nat)
      requires InTimeOrder(batch) && i < |batch| && DayOf(batch[i].at) != day && (rows == [] ==> i == 0 && groups == [])
      requires Grouped(all, before, batch, i, faults, counted, day, rows, maxId, groups, removed)
      modifies this
      ensures ok ==> Grouped(all, before, batch, i, faults, sum, DayOf(batch[i].at), [], 0, groups', removed')
      ensures !ok ==> Stopped(all, before, batch, faults, sum, groups', removed')
    {
      ok, sum, groups', removed' := FlushDay(batch, i, day, rows, maxId, faults(counted.files), counted, all, before,
          groups, removed);
      if !ok {
        DaysGrow(batch, i);
      } else if rows != [] {
        LastOfDay(batch, i, day, rows, groups);
      }
    }

    // What the loop over the batch keeps: the open day is counted but not flushed, and with none
    // open a new one begins.
    ghost predicate Grouped(all: Table, before: seq<File>, batch: seq<Row>, i: nat, faults: nat -> Fault, sum: Summary,
            day: nat, rows: seq<Row>, maxId: nat, groups: seq<File>, removed: nat)
      reads this
    {
      && Reading(batch, i, day, rows, maxId, groups)
      && sum == Summary(|Concat(groups)|, |groups|)
      && Progress(all, before, groups, removed) && removed == (if Deletes() then |groups| else 0)
      && AllPass(dryRun, keepRows, faults, sum.files)
      && sum.files + (if rows == [] then 0 else 1) == Days(batch[..i])
      && (rows == [] && i > 0 ==> DayOf(batch[i - 1].at) != day)
    }

    // Moves one batch; `late` are the rows that appear after it was read, and `faults` what goes
    // wrong at each flush. `groups` are the days written, of which the rows of the first
    // `removed` were also deleted.
    method Run(batch: seq<Row>, late: Table, faults: nat -> Fault)
      returns (sum: Summary, ok: bool, ghost groups: seq<File>, ghost removed: nat)
      requires InTimeOrder(batch) && table.Keys !! late.Keys
      modifies this
      // The files' concatenation is the batch, or up to a failure a front of it.
      ensures Concat(groups) <= batch && (ok ==> Concat(groups) == batch)
      ensures OneDayEach(groups) && WholeDays(batch, |Concat(groups)|)
      ensures files == if dryRun then old(files) else old(files) + groups
      ensures removed <= |groups| && (ok && Deletes() ==> removed == |groups|)
      // What is gone is exactly what the deletes after the first `removed` files matched.
      ensures LeftBy(table, old(table) + late, groups[..removed])
      ensures ok ==> sum == Summary(|batch|, |groups|) && |groups| == Days(batch)
      // It goes through exactly when the flush of every day does, and stops at the first that does not.
      ensures ok <==> AllPass(dryRun, keepRows, faults, Days(batch))
      ensures !ok ==>
        && sum.files < Days(batch) && AllPass(dryRun, keepRows, faults, sum.files)
        && !Passes(dryRun, keepRows, faults(sum.files))
        && |groups| == sum.files + (if faults(sum.files).DeleteFails? then 1 else 0)
        && removed == (if Deletes() then sum.files else 0)
    {
      table := table + late;
      ghost var all := table;
      var day, rows, maxId;
      ok, sum, day, rows, maxId, groups, removed := GroupByDay(batch, faults);
      if ok {
        ok, sum, groups, removed := LastDay(batch, faults, sum, day, rows, maxId, all, old(files), groups, removed);
      }
      if !ok {
        OneFailureIsEnough(dryRun, keepRows, faults, sum.files, Days(batch));
      }
    }

    // The flush after the loop.
    method LastDay(batch: seq<Row>, faults: nat -> Fault, counted: Summary, day: nat, rows: seq<Row>, maxId: nat,
            ghost all: Table, ghost before: seq<File>, ghost groups: seq<File>, ghost removed: nat)
      returns (ok: bool, sum: Summary, ghost groups': seq<File>, ghost removed': nat)
      requires InTimeOrder(batch) && (rows == [] ==> groups == [])
      requires Grouped(all, before, batch, |batch|, faults, counted, day, rows, maxId, groups, removed)
      modifies this
      ensures ok ==>
        && Progress(all, before, groups', removed') && Concat(groups') == batch
        && removed' == (if Deletes() then |groups'| else 0)
        && sum == Summary(|batch|, |groups'|) && |groups'| == Days(batch)
        && AllPass(dryRun, keepRows, faults, Days(batch))
        && WholeDays(batch, |batch|)
      ensures !ok ==> Stopped(all, before, batch, faults, sum, groups', removed')
    {
      ok, sum, groups', removed' :=
        FlushDay(batch, |batch|, day, rows, maxId, faults(counted.files), counted, all, before, groups, removed);
      assert batch[..|batch|] == batch;
    }
  }

  // How many days a batch in time order spans.
  function Days(batch: seq<Row>): nat {
    if batch == [] then 0
    else
      var n := |batch| - 1;
      Days(batch[..n]) + if n > 0 && DayOf(batch[n - 1].at) == DayOf(batch[n].at) then 0 else 1
  }

  lemma {:induction false} DaysGrow(batch: seq<Row>, i: nat)
    requires i <= |batch|
    ensures Days(batch[..i]) <= Days(batch)
    decreases |batch| - i
  {
    if i < |batch| {
      assert batch[..i + 1][..i] == batch[..i];
      DaysGrow(batch, i + 1);
    } else {
      assert batch[..i] == batch;
    }
  }

  lemma {:induction false} LastOfDay(batch: seq<Row>, i: nat, day: nat, rows: seq<Row>, groups: seq<File>)
    requires i <= |batch| && Concat(groups) + rows == batch[..i] && rows != [] && forall r :: r in rows ==>
      DayOf(r.at) == day
    ensures i > 0 && DayOf(batch[i - 1].at) == day
  {
    assert batch[..i][i - 1] == rows[|rows| - 1];
    assert rows[|rows| - 1] in rows;
  }

  lemma {:induction false} TakeCounted(batch: seq<Row>, i: nat, day: nat, rows: seq<Row>, maxId: nat, groups: seq<File>,
          files: nat)
    requires i < |batch| && Reading(batch, i, day, rows, maxId, groups) && DayOf(batch[i].at) == day
    requires files + (if rows == [] then 0 else 1) == Days(batch[..i])
    requires rows == [] && i > 0 ==> DayOf(batch[i - 1].at) != day
    ensures Reading(batch, i + 1, day, rows + [batch[i]], if batch[i].id > maxId then batch[i].id else maxId, groups)
    ensures files + 1 == Days(batch[..i + 1])
  {
    TakeRow(batch, i, day, rows, maxId, groups);
    assert batch[..i + 1][..i] == batch[..i];
    if rows != [] {
      LastOfDay(batch, i, day, rows, groups);
    }
  }

  // After `i` rows: all but the rows of the current day are in groups of earlier days.
  ghost predicate Reading(batch: seq<Row>, i: nat, day: nat, rows: seq<Row>, maxId: nat, groups: seq<File>) {
    && i <= |batch| && Concat(groups) + rows == batch[..i] && maxId == MaxId(rows)
    && (i < |batch| || rows != [] ==> forall k :: 0 <= k < |groups| ==> groups[k].day < day)
    && (forall r :: r in rows ==> DayOf(r.at) == day)
  }

  lemma {:induction false} DayIsOver(batch: seq<Row>, i: nat, day: nat, rows: seq<Row>, maxId: nat, groups: seq<File>,
          groups': seq<File>)
    requires InTimeOrder(batch) && Reading(batch, i, day, rows, maxId, groups)
    requires i < |batch| ==> DayOf(batch[i].at) != day
    requires groups' == (if rows == [] then groups else groups + [File(day, rows)])
    requires rows == [] ==> groups == []
    ensures Reading(batch, i, if i < |batch| then DayOf(batch[i].at) else 0, [], 0, groups')
  {
    if rows != [] {
      AppendGroup(groups, File(day, rows));
      assert Concat(groups') + [] == Concat(groups) + rows;
      if i < |batch| {
        assert (Concat(groups) + rows)[i - 1] == rows[|rows| - 1];
        DayGrows(batch[i - 1].at, batch[i].at);
      }
    }
  }

  lemma {:induction false} TakeRow(batch: seq<Row>, i: nat, day: nat, rows: seq<Row>, maxId: nat, groups: seq<File>)
    requires i < |batch| && Reading(batch, i, day, rows, maxId, groups) && DayOf(batch[i].at) == day
    ensures Reading(batch, i + 1, day, rows + [batch[i]], if batch[i].id > maxId then batch[i].id else maxId, groups)
  {
  }

  lemma {:induction false} StoppedAt(batch: seq<Row>, i: nat, day: nat, rows: seq<Row>, maxId: nat, groups: seq<File>,
          groups': seq<File>)
    requires InTimeOrder(batch) && Reading(batch, i, day, rows, maxId, groups) && OneDayEach(groups')
    requires i < |batch| ==> DayOf(batch[i].at) != day
    requires rows == [] ==> groups == []
    requires groups' == groups || (rows != [] && groups' == groups + [File(day, rows)])
    ensures Concat(groups') <= batch && WholeDays(batch, |Concat(groups')|)
    ensures i == |batch| && (groups' != groups || rows == []) ==> Concat(groups') == batch
  {
    AppendGroup(groups, File(day, rows));
    var n := |Concat(groups')|;
    assert Concat(groups') == batch[..n];
    if n < |batch| {
      if groups' == groups {
        if rows != [] {
          assert (Concat(groups) + rows)[n] == rows[0];
        }
      } else {
        DayIsOver(batch, i, day, rows, maxId, groups, groups');
      }
      if groups' != [] {
        FrontIsWholeDays(batch, groups', n);
      } else {
        assert Concat(groups') == [];
      }
    }
  }

  // The first `n` rows share no day with the rest.
  ghost predicate WholeDays(batch: seq<Row>, n: nat) {
    forall i, j :: 0 <= i < n <= j < |batch| ==> DayOf(batch[i].at) != DayOf(batch[j].at)
  }

  lemma {:induction false} FrontIsWholeDays(batch: seq<Row>, groups: seq<File>, n: nat)
    requires InTimeOrder(batch) && OneDayEach(groups) && n < |batch| && Concat(groups) == batch[..n]
    requires forall k :: 0 <= k < |groups| ==> groups[k].day < DayOf(batch[n].at)
    ensures WholeDays(batch, n)
  {
    forall i, j | 0 <= i < n <= j < |batch| ensures DayOf(batch[i].at) != DayOf(batch[j].at) {
      assert batch[i] == Concat(groups)[i];
      ConcatMembers(groups, batch[i]);
      DayGrows(batch[n].at, batch[j].at);
    }
  }

  // `t` is `all` less what the deletes after these files match.
  ghost predicate LeftBy(t: Table, all: Table, files: seq<File>) {
    forall r: Row :: Holds(t, r) <==> Holds(all, r) && !SweptByAny(files, r)
  }

  lemma {:induction false} AppendKeepsDays(groups: seq<File>, f: File)
    requires OneDayEach(groups) && f.rows != [] && (forall r :: r in f.rows ==> DayOf(r.at) == f.day)
    requires forall k :: 0 <= k < |groups| ==> groups[k].day < f.day
    ensures OneDayEach(groups + [f])
  {
  }

  lemma DayIsItsStart(at: nat)
    ensures DayOf(at) <= at < DayOf(at) + 24 * 3600 * 1_000_000_000 && DayOf(at) % (24 * 3600 * 1_000_000_000) == 0
  {
  }

  lemma SameDay(x: nat, at: nat)
    ensures DayOf(x) <= at < DayOf(x) + DAY <==> DayOf(at) == DayOf(x)
  {
  }

  lemma DayGrows(a: nat, b: nat)
    requires a <= b
    ensures DayOf(a) <= DayOf(b)
  {
  }

  lemma AppendGroup(groups: seq<File>, f: File)
    ensures Concat(groups + [f]) == Concat(groups) + f.rows
  {
  }

  lemma {:induction false} SweepOneMore(all: Table, before: Table, after: Table, groups: seq<File>, f: File,
          removed: nat, deletes: bool)
    requires removed == if deletes then |groups| else 0
    requires LeftBy(before, all, groups[..removed])
    requires after == if deletes then Remaining(before, f) else before
    ensures
      var removed' := if deletes then removed + 1 else removed;
      LeftBy(after, all, (groups + [f])[..removed'])
  {
    if deletes {
      var more := groups + [f];
      assert more[..removed + 1] == more && groups[..removed] == groups;
      forall r: Row ensures SweptByAny(more, r) <==> SweptByAny(groups, r) || Swept(f, r) {
        if SweptByAny(groups, r) {
          var k :| 0 <= k < |groups| && Swept(groups[k], r);
          assert Swept(more[k], r);
        }
        if Swept(f, r) {
          assert Swept(more[|groups|], r);
        }
      }
    } else {
      assert (groups + [f])[..removed] == groups[..removed];
    }
  }

  // ---- Which rows a run may delete ----------------------------------------------------------------

  // Some row outside the batch shares a day with a row of the batch and has a lower id.
  ghost predicate Straggler(t: Table, batch: seq<Row>) {
    exists r: Row, i ::
      Holds(t, r) && r !in batch && 0 <= i < |batch| && DayOf(r.at) == DayOf(batch[i].at) && r.id <= batch[i].id
  }

  lemma {:induction false} MaxIdIsReached(rows: seq<Row>, id: nat)
    ensures (exists i :: 0 <= i < |rows| && id <= rows[i].id) <==> rows != [] && id <= MaxId(rows)
  {
    if rows != [] {
      MaxIdIsReached(rows[..|rows| - 1], id);
      if i :| 0 <= i < |rows| - 1 && id <= rows[i].id {
        assert id <= rows[..|rows| - 1][i].id;
      }
    }
  }

  lemma {:induction false} ConcatMembers(files: seq<File>, r: Row)
    ensures r in Concat(files) <==> exists k :: 0 <= k < |files| && r in files[k].rows
  {
    if files != [] {
      var front := files[..|files| - 1];
      ConcatMembers(front, r);
      if k :| 0 <= k < |front| && r in front[k].rows {
        assert r in files[k].rows;
      }
      if k :| 0 <= k < |files| && r in files[k].rows {
        assert k < |front| ==> r in front[k].rows;
      }
    }
  }

  lemma {:induction false} SweptIsLow(files: seq<File>, r: Row) returns (b: Row)
    requires OneDayEach(files) && SweptByAny(files, r)
    ensures b in Concat(files) && DayOf(b.at) == DayOf(r.at) && r.id <= b.id
  {
    var k :| 0 <= k < |files| && Swept(files[k], r);
    MaxIdIsReached(files[k].rows, r.id);
    var i :| 0 <= i < |files[k].rows| && r.id <= files[k].rows[i].id;
    b := files[k].rows[i];
    assert b in files[k].rows;
    SameDay(b.at, r.at);
    ConcatMembers(files, b);
  }

  lemma {:induction false} LowIsSwept(files: seq<File>, r: Row, b: Row)
    requires OneDayEach(files)
    requires b in Concat(files) && DayOf(b.at) == DayOf(r.at) && r.id <= b.id
    ensures SweptByAny(files, r)
  {
    ConcatMembers(files, b);
    var k :| 0 <= k < |files| && b in files[k].rows;
    var i :| 0 <= i < |files[k].rows| && files[k].rows[i] == b;
    MaxIdIsReached(files[k].rows, r.id);
    SameDay(b.at, r.at);
    assert Swept(files[k], r);
  }

  // A run that goes through deletes only what it has written exactly when there is no
  // straggler: whether ids follow creation times is something the delete relies on.
  lemma {:induction false} DeletesOnlyArchivedIff(t: Table, batch: seq<Row>, files: seq<File>)
    requires OneDayEach(files) && Concat(files) == batch
    ensures (forall r: Row :: Holds(t, r) && SweptByAny(files, r) ==> r in batch) <==> !Straggler(t, batch)
  {
    if r: Row :| Holds(t, r) && SweptByAny(files, r) && r !in batch {
      var b := SweptIsLow(files, r);
      var i :| 0 <= i < |batch| && batch[i] == b;
    }
    if Straggler(t, batch) {
      var r: Row, i :|
        Holds(t, r) && r !in batch && 0 <= i < |batch| && DayOf(r.at) == DayOf(batch[i].at) && r.id <= batch[i].id;
      LowIsSwept(files, r, batch[i]);
    }
  }

  // Every row written by a run that goes through is gone from the table.
  lemma {:induction false} ArchivedRowsAreDeleted(files: seq<File>, r: Row)
    requires OneDayEach(files) && r in Concat(files)
    ensures SweptByAny(files, r)
  {
    LowIsSwept(files, r, r);
  }

  // At whichever write a run stops, a row that was deleted is in a file already stored.
  lemma {:induction false} DeletedRowsAreStored(t: Table, batch: seq<Row>, files: seq<File>, removed: nat, r: Row)
    requires OneDayEach(files) && Concat(files) <= batch && WholeDays(batch, |Concat(files)|) && removed <= |files|
    requires !Straggler(t, batch)
    requires Holds(t, r) && SweptByAny(files[..removed], r)
    ensures r in Concat(files[..removed])
  {
    FrontKeepsDays(files, removed);
    var b := SweptIsLow(files[..removed], r);
    ConcatMembers(files[..removed], b);
    var k :| 0 <= k < removed && b in files[..removed][k].rows;
    assert files[..removed][k] == files[k];
    ConcatMembers(files, b);
    assert r in Concat(files) by {
      InFrontOrBehind(batch, Concat(files), b, r, t);
    }
    ConcatMembers(files, r);
    var j :| 0 <= j < |files| && r in files[j].rows;
    assert files[j].day == files[k].day;
    ConcatMembers(files[..removed], r);
  }

  lemma {:induction false} InFrontOrBehind(batch: seq<Row>, written: seq<Row>, b: Row, r: Row, t: Table)
    requires written <= batch && WholeDays(batch, |written|) && !Straggler(t, batch)
    requires b in written && Holds(t, r) && DayOf(b.at) == DayOf(r.at) && r.id <= b.id
    ensures r in written
  {
  }

  lemma FrontKeepsDays(files: seq<File>, n: nat)
    requires OneDayEach(files) && n <= |files|
    ensures OneDayEach(files[..n])
  {
  }

  // When creation times strictly increase with ids, nothing straggles, wherever the limit cut
  // the batch and whatever arrived while its files were built.
  lemma {:induction false} AlignedIdsLeaveNoStraggler(t: Table, batch: seq<Row>, cutoff: nat, limit: nat, late: Table)
    requires IsBatch(t, batch, cutoff, limit) && t.Keys !! late.Keys
    requires forall a: Row, b: Row :: Holds(t + late, a) && Holds(t + late, b) && a.id < b.id ==> a.at < b.at
    requires forall a: Row, b: Row :: Holds(late, a) && Holds(t, b) ==> b.id < a.id
    ensures !Straggler(t + late, batch)
  {
  }

  // Two rows created at one instant and a limit between them are enough to lose one: the later
  // id is written, the earlier is deleted with it and is in no file.
  lemma TiesCanLoseARow(at: nat, id: nat)
    requires id > 0
    ensures
      var t: Table := map[id := at, id + 1 := at];
      var batch := [Row(id + 1, at)];
      && IsBatch(t, batch, at + 1, 1)
      && OneDayEach([File(DayOf(at), batch)]) && Concat([File(DayOf(at), batch)]) == batch
      && Swept(File(DayOf(at), batch), Row(id, at)) && Row(id, at) !in batch
  {
    TieIsABatch(at, id);
    var batch := [Row(id + 1, at)];
    assert MaxId([]) == 0 && batch[..0] == [];
    assert [File(DayOf(at), batch)][..0] == [] && Concat([]) == [];
  }

  lemma TieIsABatch(at: nat, id: nat)
    requires id > 0
    ensures IsBatch(map[id := at, id + 1 := at], [Row(id + 1, at)], at + 1, 1)
  {
  }
}
