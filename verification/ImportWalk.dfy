// Who is a company and whom it holds: the first two passes of the import plan (cmd/import/plan.go).
module ImportWalk {
  import opened Prelude

  // One exported person, values already cleaned; `columns` are the columns that read as true, and
  // an unreadable creation time has already become the time of the import.
  datatype Row = Row(id: string, parent: string, role: string, created: int, email: string, username: string,
          phone: string, columns: set<string>)

  type Index = map<string, Row>

  ghost predicate DistinctIds(rows: seq<Row>) {
    forall i, j :: 0 <= i < j < |rows| ==> rows[i].id != rows[j].id
  }

  ghost predicate IsLast(rows: seq<Row>, i: int, id: string) {
    0 <= i < |rows| && rows[i].id == id && forall j :: i < j < |rows| ==> rows[j].id != id
  }

  ghost predicate IsRowOf(rows: seq<Row>, id: string, r: Row) {
    exists i :: IsLast(rows, i, id) && r == rows[i]
  }

  // Rows by id; of several with one id the last.
  ghost predicate IsIndex(index: Index, rows: seq<Row>) {
    && (forall i :: 0 <= i < |rows| ==> rows[i].id in index)
    && (forall id {:trigger IsRowOf(rows, id, index[id])} :: id in index ==> IsRowOf(rows, id, index[id]))
  }

  // The company made for a row: its own id stands for the generated one, and never repeats.
  datatype CompanyRow = CompanyRow(id: nat, legacy: string)

  // The rows without a parent, in the order of the export.
  function Tops(rows: seq<Row>): seq<string> {
    if rows == [] then []
    else
      var r := rows[|rows| - 1];
      if r.parent != "" then Tops(rows[..|rows| - 1]) else Tops(rows[..|rows| - 1]) + [r.id]
  }

  // The rows without a parent, and no others, each in its place.
  lemma {:induction false} TopsOfParts(a: seq<Row>, b: seq<Row>, r: Row)
    ensures Tops(a + b) == Tops(a) + Tops(b)
    ensures Tops([r]) == if r.parent == "" then [r.id] else []
  {
    assert [r][..0] == [];
    if b == [] {
      assert a + b == a;
    } else {
      TopsOfParts(a, b[..|b| - 1], r);
      assert (a + b)[..|a + b| - 1] == a + b[..|b| - 1];
    }
  }

  // The last company made under each id.
  ghost predicate IsCompanyOf(companyOf: map<string, nat>, tops: seq<string>) {
    && (forall i :: 0 <= i < |tops| ==> tops[i] in companyOf && i <= companyOf[tops[i]])
    && (forall x :: x in companyOf ==> companyOf[x] < |tops| && tops[companyOf[x]] == x)
  }

  ghost predicate AreCompanies(companies: seq<CompanyRow>, tops: seq<string>) {
    |companies| == |tops| && forall i :: 0 <= i < |tops| ==> companies[i] == CompanyRow(i, tops[i])
  }

  method IndexRows(rows: seq<Row>) returns (byLegacy: Index)
    ensures IsIndex(byLegacy, rows)
  {
    byLegacy := map[];
    for i := 0 to |rows|
      invariant IsIndex(byLegacy, rows[..i])
    {
      IndexGrows(byLegacy, rows, i);
      byLegacy := byLegacy[rows[i].id := rows[i]];
    }
    assert rows[..|rows|] == rows;
  }

  lemma {:induction false} IndexGrows(index: Index, rows: seq<Row>, i: nat)
    requires i < |rows| && IsIndex(index, rows[..i])
    ensures IsIndex(index[rows[i].id := rows[i]], rows[..i + 1])
  {
    var next, longer := index[rows[i].id := rows[i]], rows[..i + 1];
    assert IsLast(longer, i, rows[i].id);
    forall id | id in next ensures IsRowOf(longer, id, next[id]) {
      if id != rows[i].id {
        assert IsRowOf(rows[..i], id, index[id]);
        var k :| IsLast(rows[..i], k, id) && index[id] == rows[..i][k];
        assert IsLast(longer, k, id);
      }
    }
  }

  method BuildCompanies(rows: seq<Row>) returns (companies: seq<CompanyRow>, companyOf: map<string, nat>)
    ensures AreCompanies(companies, Tops(rows))
    ensures IsCompanyOf(companyOf, Tops(rows))
  {
    companyOf, companies := map[], [];
    for i := 0 to |rows|
      invariant AreCompanies(companies, Tops(rows[..i]))
      invariant IsCompanyOf(companyOf, Tops(rows[..i]))
    {
      assert rows[..i + 1][..i] == rows[..i];
      if rows[i].parent != "" {
        continue;
      }
      companyOf := companyOf[rows[i].id := |companies|];
      companies := companies + [CompanyRow(|companies|, rows[i].id)];
    }
    assert rows[..|rows|] == rows;
  }

  // ---- The walk ---------------------------------------------------------------------------------------

  // The next node up, when there is one in the export.
  function Up(index: Index, cur: string): Option<string> {
    if cur in index && index[cur].parent != "" && index[cur].parent in index then Some(index[cur].parent) else None
  }

  function Ancestor(index: Index, id: string, n: nat): Option<string> {
    if n == 0 then Some(id)
    else
      var below := Ancestor(index, id, n - 1);
      if below.None? then None else Up(index, below.value)
  }

  // The first n nodes of the walk are there and differ.
  ghost predicate Straight(index: Index, id: string, n: nat) {
    && (forall i :: 0 <= i < n ==> Ancestor(index, id, i).Some?)
    && (forall i, j :: 0 <= i < j < n ==> Ancestor(index, id, i) != Ancestor(index, id, j))
  }

  // Where the walk from `id` stops after n steps: at the top of the chain, or at the first node
  // seen twice.
  ghost predicate StopsAt(index: Index, id: string, n: nat, node: string) {
    && n > 0 && Straight(index, id, n)
    && ( || (Ancestor(index, id, n).None? && Ancestor(index, id, n - 1) == Some(node))
         || (Ancestor(index, id, n) == Some(node) && exists m :: 0 <= m < n && Ancestor(index, id, m) == Some(node)))
  }

  ghost predicate IsRoot(index: Index, id: string, node: string) {
    exists n: nat :: StopsAt(index, id, n, node)
  }

  ghost predicate Circular(index: Index, id: string) {
    exists n: nat ::
      && n > 0 && Straight(index, id, n)
      && exists m :: 0 <= m < n && Ancestor(index, id, n) == Ancestor(index, id, m)
  }

  ghost predicate AreFirst(seen: set<string>, index: Index, id: string, n: nat) {
    forall x :: x in seen <==> exists i :: 0 <= i < n && Ancestor(index, id, i) == Some(x)
  }

  // The walk as a function: up until there is nobody, or somebody seen before.
  function Walk(index: Index, cur: string, seen: set<string>): (node: string)
    requires cur in index && seen <= index.Keys
    ensures node in index
    decreases index.Keys - seen
  {
    match Up(index, cur)
    case Some(parent) => if cur in seen then cur else Walk(index, parent, seen + {cur})
    case None => cur
  }

  function RootOf(index: Index, id: string): string
    requires id in index
  {
    Walk(index, id, {})
  }

  // One account's walk: it ends on every graph, cycles and missing parents included.
  method WalkUp(index: Index, id: string) returns (cur: string, circular: bool, missing: bool)
    requires id in index
    ensures cur == RootOf(index, id) && cur in index
    ensures circular <==> Circular(index, id)
    ensures missing <==> !circular && index[cur].parent != ""
  {
    var seen: set<string> := {};
    cur, circular, missing := id, false, false;
    ghost var n: nat := 0;
    while true
      invariant cur in index && seen <= index.Keys && !circular && !missing
      invariant Ancestor(index, id, n) == Some(cur) && Straight(index, id, n)
      invariant AreFirst(seen, index, id, n)
      invariant Walk(index, cur, seen) == RootOf(index, id)
      decreases index.Keys - seen
    {
      if cur in seen {
        circular := true;
        CycleFound(index, id, n, cur, seen);
        return;
      }
      NewNode(index, id, n, cur, seen);
      seen := seen + {cur};
      var parent := index[cur].parent;
      if parent == "" || parent !in index {
        missing := parent != "";
        assert Ancestor(index, id, n + 1).None?;
        NotCircular(index, id, n + 1);
        return;
      }
      n := n + 1;
      cur := parent;
    }
  }

  lemma {:induction false} CycleFound(index: Index, id: string, n: nat, cur: string, seen: set<string>)
    requires Ancestor(index, id, n) == Some(cur) && Straight(index, id, n) && AreFirst(seen, index, id, n)
    requires cur in seen
    ensures Circular(index, id) && IsRoot(index, id, cur)
  {
    var m :| 0 <= m < n && Ancestor(index, id, m) == Some(cur);
    assert StopsAt(index, id, n, cur);
  }

  lemma {:induction false} NewNode(index: Index, id: string, n: nat, cur: string, seen: set<string>)
    requires Ancestor(index, id, n) == Some(cur) && Straight(index, id, n) && AreFirst(seen, index, id, n)
    requires cur !in seen
    ensures Straight(index, id, n + 1) && AreFirst(seen + {cur}, index, id, n + 1)
  {
  }

  lemma {:induction false} WalkStops(index: Index, id: string, n: nat, cur: string, seen: set<string>)
    requires cur in index && seen <= index.Keys
    requires Ancestor(index, id, n) == Some(cur) && Straight(index, id, n) && AreFirst(seen, index, id, n)
    ensures IsRoot(index, id, Walk(index, cur, seen))
    decreases index.Keys - seen
  {
    if cur in seen {
      CycleFound(index, id, n, cur, seen);
    } else {
      NewNode(index, id, n, cur, seen);
      if Up(index, cur).Some? {
        WalkStops(index, id, n + 1, Up(index, cur).value, seen + {cur});
      } else {
        assert StopsAt(index, id, n + 1, cur);
      }
    }
  }

  // On every graph the walk stops at the top of the chain, or at the first node seen twice, and
  // nowhere else.
  lemma {:induction false} RootOfStops(index: Index, id: string, node: string)
    requires id in index
    ensures IsRoot(index, id, node) <==> node == RootOf(index, id)
  {
    WalkStops(index, id, 0, id, {});
    if IsRoot(index, id, node) {
      RootIsUnique(index, id, node, RootOf(index, id));
    }
  }

  // A chain that ends never came back on itself.
  lemma {:induction false} NotCircular(index: Index, id: string, n: nat)
    requires Straight(index, id, n) && Ancestor(index, id, n).None?
    ensures !Circular(index, id)
  {
  }

  lemma {:induction false} NoneStays(index: Index, id: string, n: nat, k: nat)
    requires Ancestor(index, id, n).None? && n <= k
    ensures Ancestor(index, id, k).None?
  {
    if n < k {
      NoneStays(index, id, n, k - 1);
    }
  }

  // There is one place to stop.
  lemma {:induction false} RootIsUnique(index: Index, id: string, a: string, b: string)
    requires IsRoot(index, id, a) && IsRoot(index, id, b)
    ensures a == b
  {
  }

  lemma {:induction false} OneUp(index: Index, id: string, parent: string, n: nat)
    requires Up(index, id) == Some(parent)
    ensures Ancestor(index, id, n + 1) == Ancestor(index, parent, n)
  {
    if n > 0 {
      OneUp(index, id, parent, n - 1);
    } else {
      assert Ancestor(index, id, 0) == Some(id);
    }
  }

  // A walk and the walk from one step up stop at the same node, unless the first node is itself
  // on a cycle: then each stops where it began.
  lemma {:induction false} RootOfParent(index: Index, id: string, parent: string, node: string)
    requires Up(index, id) == Some(parent) && IsRoot(index, id, node)
    ensures IsRoot(index, parent, node) || (node == id && Circular(index, id) && IsRoot(index, parent, parent))
  {
    var n: nat :| StopsAt(index, id, n, node);
    forall i: nat ensures Ancestor(index, id, i + 1) == Ancestor(index, parent, i) {
      OneUp(index, id, parent, i);
    }
    assert Straight(index, parent, n - 1) by {
      forall i | 0 <= i < n - 1 ensures Ancestor(index, parent, i).Some? {
        assert Ancestor(index, id, i + 1).Some?;
      }
      forall i, j | 0 <= i < j < n - 1 ensures Ancestor(index, parent, i) != Ancestor(index, parent, j) {
        assert Ancestor(index, id, i + 1) != Ancestor(index, id, j + 1);
      }
    }
    assert Ancestor(index, id, 1) == Some(parent);
    if Ancestor(index, id, n).None? {
      assert n > 1;
      assert StopsAt(index, parent, n - 1, node);
    } else {
      var m :| 0 <= m < n && Ancestor(index, id, m) == Some(node);
      if m > 0 {
        assert Ancestor(index, parent, m - 1) == Some(node) && Ancestor(index, parent, n - 1) == Some(node);
        assert StopsAt(index, parent, n - 1, node);
      } else {
        CycleFromParent(index, id, parent, n);
        assert Circular(index, id);
      }
    }
  }

  lemma {:induction false} CycleFromParent(index: Index, id: string, parent: string, n: nat)
    requires Up(index, id) == Some(parent) && n > 0 && Straight(index, id, n) && Ancestor(index, id, n) == Some(id)
    ensures IsRoot(index, parent, parent)
  {
    forall i: nat ensures Ancestor(index, id, i + 1) == Ancestor(index, parent, i) {
      OneUp(index, id, parent, i);
    }
    forall i | 0 <= i < n ensures Ancestor(index, parent, i).Some? {
      assert Ancestor(index, parent, i) == Ancestor(index, id, i + 1);
      assert i + 1 < n ==> Ancestor(index, id, i + 1).Some?;
    }
    forall i, j | 0 <= i < j < n ensures Ancestor(index, parent, i) != Ancestor(index, parent, j) {
      assert Ancestor(index, parent, i) == Ancestor(index, id, i + 1);
      assert Ancestor(index, parent, j) == Ancestor(index, id, j + 1);
      assert j + 1 == n ==> Ancestor(index, id, 0) != Ancestor(index, id, i + 1);
    }
    assert Straight(index, parent, n);
    assert Ancestor(index, parent, n - 1) == Some(id);
    assert Ancestor(index, parent, n) == Some(parent);
    assert Ancestor(index, parent, 0) == Some(parent);
    assert StopsAt(index, parent, n, parent);
  }

  lemma {:induction false} TopIsItsOwnRoot(index: Index, id: string)
    requires id in index && index[id].parent == ""
    ensures RootOf(index, id) == id
  {
  }

  // The walk ends at somebody without a parent exactly when the chain of parents reaches one.
  lemma {:induction false} RootHasNoParentIff(index: Index, id: string)
    requires id in index
    ensures index[RootOf(index, id)].parent == "" <==> exists n: nat :: ReachesTop(index, id, n)
  {
    var root := RootOf(index, id);
    RootOfStops(index, id, root);
    var n: nat :| StopsAt(index, id, n, root);
    if index[root].parent == "" {
      if Ancestor(index, id, n).Some? {
        var m :| 0 <= m < n && Ancestor(index, id, m) == Some(root);
        NoneStays(index, id, m + 1, n);
      }
      assert ReachesTop(index, id, n - 1);
    }
    if k: nat :| ReachesTop(index, id, k) {
      TopIsTheRoot(index, id, k, n, root);
    }
  }

  ghost predicate ReachesTop(index: Index, id: string, n: nat) {
    var node := Ancestor(index, id, n);
    node.Some? && node.value in index && index[node.value].parent == ""
  }

  lemma {:induction false} TopIsTheRoot(index: Index, id: string, k: nat, n: nat, root: string)
    requires ReachesTop(index, id, k) && StopsAt(index, id, n, root)
    ensures Ancestor(index, id, k) == Some(root)
  {
    assert Ancestor(index, id, k + 1).None?;
    if n > k + 1 {
      assert Ancestor(index, id, k + 1).Some?;
    } else if n <= k {
      if Ancestor(index, id, n).None? {
        NoneStays(index, id, n, k);
      } else {
        NotOnACycle(index, id, n, k);
      }
    }
  }

  // A chain that has come back on itself never reaches a top.
  lemma {:induction false} NotOnACycle(index: Index, id: string, n: nat, k: nat)
    requires n <= k && Ancestor(index, id, n).Some?
    requires exists m :: 0 <= m < n && Ancestor(index, id, m) == Ancestor(index, id, n)
    ensures Ancestor(index, id, k + 1).Some?
  {
    var m :| 0 <= m < n && Ancestor(index, id, m) == Ancestor(index, id, n);
    Periodic(index, id, m, n, k + 1);
  }

  lemma {:induction false} Periodic(index: Index, id: string, m: nat, n: nat, k: nat)
    requires m < n && Ancestor(index, id, n).Some? && Ancestor(index, id, m) == Ancestor(index, id, n)
    ensures Ancestor(index, id, k).Some?
  {
    if k <= n {
      if Ancestor(index, id, k).None? {
        NoneStays(index, id, k, n);
      }
    } else {
      Repeats(index, id, m, n, k - n);
      Periodic(index, id, m, n, m + (k - n));
    }
  }

  lemma {:induction false} Repeats(index: Index, id: string, m: nat, n: nat, d: nat)
    requires Ancestor(index, id, m) == Ancestor(index, id, n)
    ensures Ancestor(index, id, m + d) == Ancestor(index, id, n + d)
  {
    if d > 0 {
      Repeats(index, id, m, n, d - 1);
    }
  }
}
