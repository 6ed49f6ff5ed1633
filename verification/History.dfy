/**
  The call history: a table that is pruned to its newest rows on every insert,
  listed oldest first, and cleared by filter.

  A row's id is the number of its insert, since ids are never reused. The SQL
  statements are functions of the table, which is kept in the order of its ids.
 */
module History {
  import opened GoText

  datatype Item = Item(at: int, server: Text, tool: Text, success: bool, error: Text, durationMs: int)

  datatype Row = Row(id: nat, item: Item)

  const DEFAULT_LIMIT := 50
  const MAX_LIMIT := 500

  // ------------------------------------------------------------------ statements

  /** WHERE server = ? AND tool = ?, each part only if its filter is given. */
  predicate Matches(item: Item, server: Text, tool: Text) {
    (server == "" || item.server == server) && (tool == "" || item.tool == tool)
  }

  /** The rows that match, or with `keep` false those that do not. */
  function Where(rows: seq<Row>, server: Text, tool: Text, keep: bool): seq<Row> {
    if rows == [] then []
    else (if Matches(rows[0].item, server, tool) == keep then [rows[0]] else []) + Where(rows[1..], server, tool, keep)
  }

  function Reversed<T>(s: seq<T>): (r: seq<T>)
    ensures |r| == |s| && forall i :: 0 <= i < |s| ==> r[i] == s[|s| - 1 - i]
  {
    seq(|s|, i requires 0 <= i < |s| => s[|s| - 1 - i])
  }

  function Take<T>(s: seq<T>, n: nat): seq<T> {
    if n < |s| then s[..n] else s
  }

  function Last<T>(s: seq<T>, n: nat): seq<T> {
    if n < |s| then s[|s| - n..] else s
  }

  /** SELECT ... WHERE ... ORDER BY id DESC LIMIT n. */
  function Newest(rows: seq<Row>, server: Text, tool: Text, n: nat): seq<Row> {
    Take(Reversed(Where(rows, server, tool, true)), n)
  }

  function Ids(rows: seq<Row>): set<nat> {
    set i | 0 <= i < |rows| :: rows[i].id
  }

  /** DELETE ... WHERE id NOT IN (...). */
  function DeleteNotIn(rows: seq<Row>, ids: set<nat>): seq<Row> {
    if rows == [] then []
    else (if rows[0].id in ids then [rows[0]] else []) + DeleteNotIn(rows[1..], ids)
  }

  function Items(rows: seq<Row>): (items: seq<Item>)
    ensures |items| == |rows|
  {
    seq(|rows|, i requires 0 <= i < |rows| => rows[i].item)
  }

  function EffectiveLimit(limit: int): nat {
    if limit <= 0 then DEFAULT_LIMIT else if limit > MAX_LIMIT then MAX_LIMIT else limit
  }

  // --------------------------------------------------- what the statements amount to

  ghost predicate IsOrdered(rows: seq<Row>) {
    forall i, j :: 0 <= i < j < |rows| ==> rows[i].id < rows[j].id
  }

  lemma {:induction false} EverythingMatches(rows: seq<Row>)
    ensures Where(rows, "", "", true) == rows
  {
    if rows != [] {
      EverythingMatches(rows[1..]);
      assert [rows[0]] + rows[1..] == rows;
    }
  }

  lemma {:induction false} DeleteOfConcat(a: seq<Row>, b: seq<Row>, ids: set<nat>)
    ensures DeleteNotIn(a + b, ids) == DeleteNotIn(a, ids) + DeleteNotIn(b, ids)
  {
    if a == [] {
      assert a + b == b;
    } else {
      DeleteOfConcat(a[1..], b, ids);
      TailOfConcat(a, b);
      Associative(if a[0].id in ids then [a[0]] else [], DeleteNotIn(a[1..], ids), DeleteNotIn(b, ids));
    }
  }

  lemma {:induction false} DeleteAll(rows: seq<Row>, ids: set<nat>)
    requires forall i :: 0 <= i < |rows| ==> rows[i].id !in ids
    ensures DeleteNotIn(rows, ids) == []
  {
    if rows != [] {
      DeleteAll(rows[1..], ids);
    }
  }

  lemma {:induction false} DeleteNone(rows: seq<Row>, ids: set<nat>)
    requires forall i :: 0 <= i < |rows| ==> rows[i].id in ids
    ensures DeleteNotIn(rows, ids) == rows
  {
    if rows != [] {
      DeleteNone(rows[1..], ids);
      assert [rows[0]] + rows[1..] == rows;
    }
  }

  lemma NewestAreLast(rows: seq<Row>, n: nat)
    ensures Ids(Newest(rows, "", "", n)) == Ids(Last(rows, n))
  {
    EverythingMatches(rows);
    ReversedTake(rows, n);
    var newest, last := Newest(rows, "", "", n), Last(rows, n);
    assert newest == Reversed(last);
    forall i | 0 <= i < |last|
      ensures last[i].id in Ids(newest)
    {
      assert newest[|last| - 1 - i] == last[i];
    }
  }

  lemma ReversedTake<T>(s: seq<T>, n: nat)
    ensures Take(Reversed(s), n) == Reversed(Last(s, n))
  {
  }

  /** Pruning leaves the newest rows. */
  lemma PruneKeepsLast(rows: seq<Row>, n: nat)
    requires IsOrdered(rows)
    ensures DeleteNotIn(rows, Ids(Newest(rows, "", "", n))) == Last(rows, n)
  {
    NewestAreLast(rows, n);
    var cut := if n < |rows| then |rows| - n else 0;
    var before, last := rows[..cut], rows[cut..];
    assert rows == before + last && last == Last(rows, n);
    DeleteOfConcat(before, last, Ids(last));
    DeleteAll(before, Ids(last));
    DeleteNone(last, Ids(last));
  }

  lemma LastIsOrdered(rows: seq<Row>, n: nat)
    requires IsOrdered(rows)
    ensures IsOrdered(Last(rows, n))
  {
  }

  lemma {:induction false} WhereSelects(rows: seq<Row>, server: Text, tool: Text, keep: bool)
    ensures forall r :: r in Where(rows, server, tool, keep) <==> r in rows && Matches(r.item, server, tool) == keep
  {
    if rows != [] {
      WhereSelects(rows[1..], server, tool, keep);
      assert forall r :: r in rows <==> r == rows[0] || r in rows[1..];
    }
  }

  lemma {:induction false} WhereIsOrdered(rows: seq<Row>, server: Text, tool: Text, keep: bool)
    requires IsOrdered(rows)
    ensures IsOrdered(Where(rows, server, tool, keep))
  {
    if rows != [] {
      var tail := rows[1..];
      var left := Where(tail, server, tool, keep);
      assert forall i :: 0 <= i < |tail| ==> tail[i] == rows[i + 1];
      WhereIsOrdered(tail, server, tool, keep);
      WhereSelects(tail, server, tool, keep);
      assert forall i :: 0 <= i < |left| ==> left[i] in tail;
      PrependIsOrdered(rows[0], left);
    }
  }

  lemma PrependIsOrdered(row: Row, rows: seq<Row>)
    requires IsOrdered(rows) && forall i :: 0 <= i < |rows| ==> row.id < rows[i].id
    ensures IsOrdered([row] + rows)
  {
  }

  lemma AppendIsOrdered(rows: seq<Row>, row: Row)
    requires IsOrdered(rows) && forall i :: 0 <= i < |rows| ==> rows[i].id < row.id
    ensures IsOrdered(rows + [row])
  {
  }

  /** What is cleared and what is left make up the table. */
  lemma {:induction false} ClearPartitions(rows: seq<Row>, server: Text, tool: Text)
    ensures |Where(rows, server, tool, true)| + |Where(rows, server, tool, false)| == |rows|
    ensures multiset(Where(rows, server, tool, true)) + multiset(Where(rows, server, tool, false)) == multiset(rows)
  {
    if rows != [] {
      ClearPartitions(rows[1..], server, tool);
      assert rows == [rows[0]] + rows[1..];
    }
  }

  /** After a clear, nothing that it matches is listed. */
  lemma {:induction false} ClearedIsEmpty(rows: seq<Row>, server: Text, tool: Text)
    ensures Where(Where(rows, server, tool, false), server, tool, true) == []
  {
    if rows != [] {
      ClearedIsEmpty(rows[1..], server, tool);
      var left := Where(rows, server, tool, false);
      if !Matches(rows[0].item, server, tool) {
        assert left[1..] == Where(rows[1..], server, tool, false);
      } else {
        assert left == Where(rows[1..], server, tool, false);
      }
    }
  }

  /** A filter that is not given lets everything through; the others select by equality. */
  predicate IsWanted(item: Item, server: Text, tool: Text) {
    !(server != "" && item.server != server) && !(tool != "" && item.tool != tool)
  }

  /** What is listed, oldest first: wanted rows only, 50 unless asked otherwise and at most 500, and no newer one is left out. */
  lemma ListedRows(rows: seq<Row>, server: Text, tool: Text, limit: int)
    requires IsOrdered(rows)
    ensures
      var listed := Last(Where(rows, server, tool, true), EffectiveLimit(limit));
      && IsOrdered(listed)
      && |listed| <= (if limit <= 0 then 50 else if limit <= 500 then limit else 500)
      && (forall r :: r in listed ==> r in rows && IsWanted(r.item, server, tool))
      && (forall r :: r in rows && IsWanted(r.item, server, tool) && r !in listed ==>
            |listed| == (if limit <= 0 then 50 else if limit <= 500 then limit else 500)
            && forall l :: l in listed ==> r.id < l.id)
  {
    var wanted := Where(rows, server, tool, true);
    WhereSelects(rows, server, tool, true);
    WhereIsOrdered(rows, server, tool, true);
    LastIsOrdered(wanted, EffectiveLimit(limit));
    LastLeavesOutOlder(wanted, EffectiveLimit(limit));
  }

  lemma LastLeavesOutOlder(rows: seq<Row>, n: nat)
    requires IsOrdered(rows)
    ensures |Last(rows, n)| <= n && forall r :: r in Last(rows, n) ==> r in rows
    ensures forall r, l :: r in rows && r !in Last(rows, n) && l in Last(rows, n) ==> r.id < l.id
    ensures forall r :: r in rows && r !in Last(rows, n) ==> |Last(rows, n)| == n
  {
    var last := Last(rows, n);
    var cut := |rows| - |last|;
    assert forall i :: cut <= i < |rows| ==> rows[i] == last[i - cut];
  }

  /** A clear takes exactly the wanted rows, and leaves the others in their order. */
  lemma ClearedRows(rows: seq<Row>, server: Text, tool: Text)
    requires IsOrdered(rows)
    ensures
      var left := Where(rows, server, tool, false);
      IsOrdered(left) && forall r :: r in left <==> r in rows && !IsWanted(r.item, server, tool)
  {
    WhereSelects(rows, server, tool, false);
    WhereIsOrdered(rows, server, tool, false);
  }

  // ------------------------------------------------------------------------ table

  datatype Cleared = Count(n: nat) | FiltersWithAll | NothingChosen

  class History {
    var rows: seq<Row>
    var inserts: nat

    ghost predicate Valid()
      reads this
    {
      IsOrdered(rows) && forall i :: 0 <= i < |rows| ==> 1 <= rows[i].id <= inserts
    }

    constructor ()
      ensures Valid() && rows == [] && inserts == 0
    {
      rows, inserts := [], 0;
    }

    method InsertHistory(item: Item, historySize: int)
      requires Valid()
      modifies this
      ensures Valid() && inserts == old(inserts) + 1
      ensures rows == Inserted(old(rows), Row(inserts, item), historySize)
    {
      inserts := inserts + 1;
      var row := Row(inserts, item);
      InsertedIsOrdered(rows, row, historySize);
      AppendIsOrdered(rows, row);
      rows := rows + [row];
      if historySize > 0 {
        PruneKeepsLast(rows, historySize);
        rows := DeleteNotIn(rows, Ids(Newest(rows, "", "", historySize)));
      }
    }

    /** The query returns the newest rows first; they are turned round in place. */
    method ListHistory(serverFilter: Text, toolFilter: Text, limit: int) returns (out: array<Item>)
      ensures fresh(out)
      ensures out[..] == Items(Last(Where(rows, serverFilter, toolFilter, true), EffectiveLimit(limit)))
    {
      var n := limit;
      if n <= 0 {
        n := DEFAULT_LIMIT;
      }
      if n > MAX_LIMIT {
        n := MAX_LIMIT;
      }
      out := ToArray(Items(Newest(rows, serverFilter, toolFilter, n)));
      ReverseInPlace(out);
      ReversedTake(Where(rows, serverFilter, toolFilter, true), n);
      ItemsOfReversed(Last(Where(rows, serverFilter, toolFilter, true), n));
    }

    method ClearHistory(serverFilter: Text, toolFilter: Text, all: bool) returns (r: Cleared)
      requires Valid()
      modifies this`rows
      ensures Valid()
      ensures r == ClearOutcome(old(rows), serverFilter, toolFilter, all)
      ensures r.Count? <==> all == (serverFilter == "" && toolFilter == "")
      ensures r.Count? ==> r.n == |old(rows)| - |rows|
      ensures r.FiltersWithAll? ==> all
      ensures rows == if r.Count? then Where(old(rows), serverFilter, toolFilter, false) else old(rows)
    {
      if all && (serverFilter != "" || toolFilter != "") {
        return FiltersWithAll;
      }
      if !all && serverFilter == "" && toolFilter == "" {
        return NothingChosen;
      }
      var before := rows;
      WhereIsOrdered(before, serverFilter, toolFilter, false);
      WhereSelects(before, serverFilter, toolFilter, false);
      ClearPartitions(before, serverFilter, toolFilter);
      rows := Where(before, serverFilter, toolFilter, false);
      forall i | 0 <= i < |rows|
        ensures 1 <= rows[i].id <= inserts
      {
        assert rows[i] in before;
      }
      return Count(|before| - |rows|);
    }
  }

  method ToArray(items: seq<Item>) returns (a: array<Item>)
    ensures fresh(a) && a[..] == items
  {
    a := new Item[|items|](i requires 0 <= i < |items| => items[i]);
  }

  method ReverseInPlace(a: array<Item>)
    modifies a
    ensures a[..] == Reversed(old(a[..]))
  {
    var left, right := 0, a.Length - 1;
    while left < right
      invariant 0 <= left <= right + 1 <= a.Length && left + right == a.Length - 1
      invariant forall k :: 0 <= k < left || right < k < a.Length ==> a[k] == old(a[a.Length - 1 - k])
      invariant forall k :: left <= k <= right ==> a[k] == old(a[k])
    {
      a[left], a[right] := a[right], a[left];
      left, right := left + 1, right - 1;
    }
  }

  lemma ItemsOfReversed(rows: seq<Row>)
    ensures Reversed(Items(Reversed(rows))) == Items(rows)
  {
  }

  function Inserted(rows: seq<Row>, row: Row, historySize: int): seq<Row> {
    if historySize > 0 then Last(rows + [row], historySize) else rows + [row]
  }

  lemma InsertedIsOrdered(rows: seq<Row>, row: Row, historySize: int)
    requires IsOrdered(rows) && 1 <= row.id && forall i :: 0 <= i < |rows| ==> 1 <= rows[i].id < row.id
    ensures
      var after := Inserted(rows, row, historySize);
      IsOrdered(after) && forall i :: 0 <= i < |after| ==> 1 <= after[i].id <= row.id
  {
    AppendIsOrdered(rows, row);
    if historySize > 0 {
      LastIsOrdered(rows + [row], historySize);
    }
  }

  /** A clear needs a filter or the explicit flag, and not both. */
  function ClearOutcome(rows: seq<Row>, server: Text, tool: Text, all: bool): Cleared {
    if all && (server != "" || tool != "") then FiltersWithAll
    else if !all && server == "" && tool == "" then NothingChosen
    else Count(|Where(rows, server, tool, true)|)
  }

  // ------------------------------------------------------------------------- runs

  datatype Step = Insert(item: Item) | Clear(server: Text, tool: Text, all: bool)

  datatype Table = Table(rows: seq<Row>, inserted: seq<Item>)

  function Next(t: Table, step: Step, historySize: int): Table {
    match step
    case Insert(item) =>
      Table(Inserted(t.rows, Row(|t.inserted| + 1, item), historySize), t.inserted + [item])
    case Clear(server, tool, all) =>
      if ClearOutcome(t.rows, server, tool, all).Count? then t.(rows := Where(t.rows, server, tool, false)) else t
  }

  function Run(steps: seq<Step>, historySize: int): Table {
    if steps == [] then Table([], [])
    else Next(Run(steps[..|steps| - 1], historySize), steps[|steps| - 1], historySize)
  }

  /** Every row stands for the insert of its number, and the rows are in the order of the inserts. */
  ghost predicate IsSubsequence(t: Table) {
    && IsOrdered(t.rows)
    && forall i :: 0 <= i < |t.rows| ==> 1 <= t.rows[i].id <= |t.inserted| && t.rows[i].item == t.inserted[t.rows[i].id - 1]
  }

  lemma InsertKeepsSubsequence(t: Table, item: Item, historySize: int)
    requires IsSubsequence(t)
    ensures IsSubsequence(Next(t, Insert(item), historySize))
  {
    var row := Row(|t.inserted| + 1, item);
    AppendKeepsSubsequence(t, row);
    if historySize > 0 {
      LastKeepsSubsequence(Table(t.rows + [row], t.inserted + [item]), historySize);
    }
  }

  lemma AppendKeepsSubsequence(t: Table, row: Row)
    requires IsSubsequence(t) && row.id == |t.inserted| + 1
    ensures IsSubsequence(Table(t.rows + [row], t.inserted + [row.item]))
  {
    AppendIsOrdered(t.rows, row);
  }

  lemma LastKeepsSubsequence(t: Table, n: nat)
    requires IsSubsequence(t)
    ensures IsSubsequence(t.(rows := Last(t.rows, n)))
  {
    LastIsOrdered(t.rows, n);
  }

  lemma ClearKeepsSubsequence(t: Table, server: Text, tool: Text)
    requires IsSubsequence(t)
    ensures IsSubsequence(t.(rows := Where(t.rows, server, tool, false)))
  {
    WhereIsOrdered(t.rows, server, tool, false);
    WhereSelects(t.rows, server, tool, false);
    var left := Where(t.rows, server, tool, false);
    forall i | 0 <= i < |left|
      ensures 1 <= left[i].id <= |t.inserted| && left[i].item == t.inserted[left[i].id - 1]
    {
      assert left[i] in t.rows;
    }
  }

  lemma StepKeepsSubsequence(t: Table, step: Step, historySize: int)
    requires IsSubsequence(t)
    ensures IsSubsequence(Next(t, step, historySize))
  {
    match step
    case Insert(item) => InsertKeepsSubsequence(t, item, historySize);
    case Clear(server, tool, _) => ClearKeepsSubsequence(t, server, tool);
  }

  /** Over any run the table is an order-preserving part of what was inserted, and after an insert it fits. */
  lemma {:induction false} HistoryIsABoundedSubsequence(steps: seq<Step>, historySize: int)
    ensures IsSubsequence(Run(steps, historySize))
    ensures historySize > 0 ==> |Run(steps, historySize).rows| <= historySize
  {
    if steps != [] {
      var before := Run(steps[..|steps| - 1], historySize);
      HistoryIsABoundedSubsequence(steps[..|steps| - 1], historySize);
      StepKeepsSubsequence(before, steps[|steps| - 1], historySize);
      var step := steps[|steps| - 1];
      if step.Clear? {
        ClearPartitions(before.rows, step.server, step.tool);
      }
    }
  }

  function AllInserts(items: seq<Item>): seq<Step> {
    seq(|items|, i requires 0 <= i < |items| => Insert(items[i]))
  }

  lemma LastOfAppend<T>(s: seq<T>, x: T, n: nat)
    requires n > 0
    ensures Last(Last(s, n) + [x], n) == Last(s + [x], n)
  {
  }

  lemma InitAndLast<T>(s: seq<T>)
    requires s != []
    ensures s[..|s| - 1] + [s[|s| - 1]] == s
  {
  }

  /** Without clears, everything is inserted, and the table holds the last `historySize` of it. */
  lemma {:induction false} InsertsKeepTheLast(items: seq<Item>, historySize: nat)
    requires historySize > 0
    ensures Items(Run(AllInserts(items), historySize).rows) == Last(items, historySize)
    ensures Run(AllInserts(items), historySize).inserted == items
  {
    if items != [] {
      var n := |items| - 1;
      InsertsKeepTheLast(items[..n], historySize);
      RunOfInserts(items, historySize);
      InsertKeepsLast(Run(AllInserts(items[..n]), historySize).rows, Row(n + 1, items[n]), items[..n], historySize);
      InitAndLast(items);
    }
  }

  lemma AllInsertsPrefix(items: seq<Item>)
    requires items != []
    ensures
      var n := |items| - 1;
      |AllInserts(items)| == n + 1 && AllInserts(items)[n] == Insert(items[n])
      && AllInserts(items)[..n] == AllInserts(items[..n])
  {
  }

  lemma RunOfInserts(items: seq<Item>, historySize: int)
    requires items != []
    ensures
      var n := |items| - 1;
      Run(AllInserts(items), historySize) == Next(Run(AllInserts(items[..n]), historySize), Insert(items[n]), historySize)
  {
    AllInsertsPrefix(items);
  }

  lemma InsertKeepsLast(rows: seq<Row>, row: Row, items: seq<Item>, historySize: nat)
    requires historySize > 0 && Items(rows) == Last(items, historySize)
    ensures Items(Inserted(rows, row, historySize)) == Last(items + [row.item], historySize)
  {
    ItemsOfLast(rows + [row], historySize);
    assert Items(rows + [row]) == Items(rows) + [row.item];
    LastOfAppend(items, row.item, historySize);
  }

  lemma ItemsOfLast(rows: seq<Row>, n: nat)
    ensures Items(Last(rows, n)) == Last(Items(rows), n)
  {
  }
}
