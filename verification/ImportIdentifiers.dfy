// Which account keeps an identifier that several share: resolveDuplicates in cmd/import/plan.go.
module ImportIdentifiers {
  import opened ImportWalk

  datatype Entry = Entry(id: string, created: int)

  ghost predicate ByAge(list: seq<Entry>) {
    forall i, j :: 0 <= i < j < |list| ==> list[i].created <= list[j].created
  }

  function PutByAge(list: seq<Entry>, e: Entry): seq<Entry> {
    if list == [] || e.created < list[0].created then [e] + list else [list[0]] + PutByAge(list[1..], e)
  }

  lemma {:induction false} PutByAgeKeeps(list: seq<Entry>, e: Entry)
    ensures multiset(PutByAge(list, e)) == multiset(list) + multiset{e}
  {
    if list != [] && list[0].created <= e.created {
      PutByAgeKeeps(list[1..], e);
      assert list == [list[0]] + list[1..];
    }
  }

  lemma {:induction false} PutByAgeSorts(list: seq<Entry>, e: Entry)
    requires ByAge(list)
    ensures ByAge(PutByAge(list, e))
  {
    if list != [] && list[0].created <= e.created {
      var rest := PutByAge(list[1..], e);
      PutByAgeSorts(list[1..], e);
      PutByAgeKeeps(list[1..], e);
      forall j | 0 <= j < |rest| ensures list[0].created <= rest[j].created {
        assert rest[j] in multiset(rest);
        assert rest[j] == e || rest[j] in list[1..];
      }
    }
  }

  // The library's unstable sort: callers cannot rely on the order of entries of one age.
  method SortByAge(list: seq<Entry>) returns (sorted: seq<Entry>)
    ensures ByAge(sorted) && multiset(sorted) == multiset(list)
  {
    sorted := [];
    for i := 0 to |list|
      invariant ByAge(sorted) && multiset(sorted) == multiset(list[..i])
    {
      PutByAgeSorts(sorted, list[i]);
      PutByAgeKeeps(sorted, list[i]);
      sorted := PutByAge(sorted, list[i]);
      assert list[..i + 1] == list[..i] + [list[i]];
    }
    assert list[..|list|] == list;
  }

  // The accounts holding one value, in the order of the export.
  function Holders(rows: seq<Row>, value: Row -> string, v: string): seq<Entry> {
    if rows == [] then []
    else
      var r := rows[|rows| - 1];
      var before := Holders(rows[..|rows| - 1], value, v);
      if value(r) == v then before + [Entry(r.id, r.created)] else before
  }

  lemma {:induction false} HoldersAre(rows: seq<Row>, value: Row -> string, v: string, e: Entry)
    ensures e in Holders(rows, value, v) <==>
      exists i :: 0 <= i < |rows| && value(rows[i]) == v && e == Entry(rows[i].id, rows[i].created)
  {
    if rows != [] {
      var rest := rows[..|rows| - 1];
      HoldersAre(rest, value, v, e);
      assert rows == rest + [rows[|rows| - 1]];
      forall i | 0 <= i < |rest| ensures rows[i] == rest[i] {
      }
    }
  }

  predicate Contested(value: string, placeholders: set<string>) {
    value != "" && value !in placeholders
  }

  // One winner per contested value somebody holds, and it is an oldest holder.
  ghost predicate AreWinners(winners: map<string, Entry>, rows: seq<Row>, value: Row -> string,
          placeholders: set<string>)
  {
    && (forall v :: v in winners <==> Contested(v, placeholders) && Holders(rows, value, v) != [])
    && (forall v :: v in winners ==> winners[v] in Holders(rows, value, v))
    && (forall v, e :: v in winners && e in Holders(rows, value, v) ==> winners[v].created <= e.created)
  }

  ghost predicate AreGroups(groups: map<string, seq<Entry>>, rows: seq<Row>, value: Row -> string,
          placeholders: set<string>)
  {
    && (forall v :: v in groups <==> Contested(v, placeholders) && Holders(rows, value, v) != [])
    && (forall v :: v in groups ==> groups[v] == Holders(rows, value, v))
  }

  function WinnerIds(winners: map<string, Entry>): set<string> {
    set v | v in winners :: winners[v].id
  }

  ghost predicate Resolved(keep: set<string>, rows: seq<Row>, value: Row -> string, placeholders: set<string>) {
    exists winners: map<string, Entry> :: AreWinners(winners, rows, value, placeholders) && keep == WinnerIds(winners)
  }

  // `value` reads one column and lower-cases it.
  method ResolveDuplicates(rows: seq<Row>, value: Row -> string, placeholders: set<string>)
    returns (keep: set<string>)
    ensures Resolved(keep, rows, value, placeholders)
  {
    var groups: map<string, seq<Entry>> := map[];
    for i := 0 to |rows|
      invariant AreGroups(groups, rows[..i], value, placeholders)
    {
      assert rows[..i + 1][..i] == rows[..i];
      var v := value(rows[i]);
      if !Contested(v, placeholders) {
        continue;
      }
      groups := groups[v := (if v in groups then groups[v] else []) + [Entry(rows[i].id, rows[i].created)]];
    }
    assert rows[..|rows|] == rows;

    keep := {};
    ghost var winners: map<string, Entry> := map[];
    var todo := groups.Keys;
    while todo != {}
      invariant todo <= groups.Keys && winners.Keys == groups.Keys - todo
      invariant forall v :: v in winners ==> winners[v] in groups[v]
      invariant forall v, e :: v in winners && e in groups[v] ==> winners[v].created <= e.created
      invariant keep == WinnerIds(winners)
      decreases todo
    {
      var v :| v in todo;
      todo := todo - {v};
      var list := SortByAge(groups[v]);
      OldestHolder(groups[v], list);
      keep := keep + {list[0].id};
      winners := winners[v := list[0]];
    }
  }

  lemma {:induction false} OldestHolder(list: seq<Entry>, sorted: seq<Entry>)
    requires list != [] && ByAge(sorted) && multiset(sorted) == multiset(list)
    ensures sorted != [] && sorted[0] in list && forall e :: e in list ==> sorted[0].created <= e.created
  {
    assert list[0] in multiset(list);
    assert list[0] in multiset(sorted);
    assert sorted[0] in multiset(sorted);
    assert sorted[0] in multiset(list);
    forall e | e in list ensures sorted[0].created <= e.created {
      assert e in multiset(list);
      assert e in multiset(sorted);
    }
  }

  // With distinct ids a contested value is kept by exactly one account, so no unique index can
  // refuse the rows, and every other holder is no older than the one that kept it.
  lemma {:induction false} OneAccountKeepsEachValue(rows: seq<Row>, value: Row -> string, placeholders: set<string>,
          keep: set<string>, i: nat, j: nat)
    requires DistinctIds(rows) && Resolved(keep, rows, value, placeholders)
    requires i < |rows| && j < |rows| && rows[i].id in keep && value(rows[i]) == value(rows[j])
    ensures Contested(value(rows[i]), placeholders)
    ensures rows[i].created <= rows[j].created
    ensures rows[j].id in keep ==> i == j
  {
    var winners: map<string, Entry> :| AreWinners(winners, rows, value, placeholders) && keep == WinnerIds(winners);
    KeptIsTheWinner(rows, value, placeholders, winners, i);
    HoldersAre(rows, value, value(rows[j]), Entry(rows[j].id, rows[j].created));
    if rows[j].id in keep {
      KeptIsTheWinner(rows, value, placeholders, winners, j);
    }
  }

  lemma {:induction false} KeptIsTheWinner(rows: seq<Row>, value: Row -> string, placeholders: set<string>,
          winners: map<string, Entry>, i: nat)
    requires DistinctIds(rows) && AreWinners(winners, rows, value, placeholders)
    requires i < |rows| && exists v :: v in winners && winners[v].id == rows[i].id
    ensures value(rows[i]) in winners && winners[value(rows[i])] == Entry(rows[i].id, rows[i].created)
  {
    var v :| v in winners && winners[v].id == rows[i].id;
    HoldersAre(rows, value, v, winners[v]);
    var k :| 0 <= k < |rows| && value(rows[k]) == v && winners[v] == Entry(rows[k].id, rows[k].created);
    assert rows[k].id == rows[i].id;
  }

  // And somebody keeps it.
  lemma {:induction false} SomebodyKeepsIt(rows: seq<Row>, value: Row -> string, placeholders: set<string>,
          keep: set<string>, i: nat) returns (k: nat)
    requires Resolved(keep, rows, value, placeholders)
    requires i < |rows| && Contested(value(rows[i]), placeholders)
    ensures k < |rows| && value(rows[k]) == value(rows[i]) && rows[k].id in keep
  {
    var winners: map<string, Entry> :| AreWinners(winners, rows, value, placeholders) && keep == WinnerIds(winners);
    var v := value(rows[i]);
    HoldersAre(rows, value, v, Entry(rows[i].id, rows[i].created));
    assert v in winners;
    HoldersAre(rows, value, v, winners[v]);
    k :| 0 <= k < |rows| && value(rows[k]) == v && winners[v] == Entry(rows[k].id, rows[k].created);
  }
}
