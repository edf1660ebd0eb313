/** The summary of the presence table (attendance_list.py lines 188-204,
    oppmListe2.py lines 116-126): a totals row of per-date sums, a
    `TimesPresent` / `Ganger` column of per-row sums, removal of the rows
    whose sum is zero, hiding of the last row's sum, and a descending sort.
    pandas' `sum` skips NaN, so an unset cell counts as nothing. */
module Aggregation {
  import opened Basics
  import opened Dates
  import opened Reconciliation

  // ---------------------------------------------------------------------
  // Sums over a grid of cells

  /** What pandas' `sum` adds for a cell: NaN adds nothing. */
  function Value(c: Option<nat>): nat {
    if c.Some? then c.value else 0
  }

  /** `sum(axis=1)` of one row. */
  function SumCells(cells: seq<Option<nat>>): nat {
    if cells == [] then 0 else SumCells(cells[..|cells| - 1]) + Value(cells[|cells| - 1])
  }

  predicate Rectangular(grid: seq<seq<Option<nat>>>, w: nat) {
    forall r :: 0 <= r < |grid| ==> |grid[r]| == w
  }

  /** `sum(axis=0)` of column `k`. */
  function SumColumn(grid: seq<seq<Option<nat>>>, w: nat, k: nat): nat
    requires Rectangular(grid, w) && k < w
  {
    if grid == [] then 0 else SumColumn(grid[..|grid| - 1], w, k) + Value(grid[|grid| - 1][k])
  }

  /** The sum of the row sums. */
  function SumOfRows(grid: seq<seq<Option<nat>>>): nat {
    if grid == [] then 0 else SumOfRows(grid[..|grid| - 1]) + SumCells(grid[|grid| - 1])
  }

  /** The sum of the first `k` column sums. */
  function SumOfColumns(grid: seq<seq<Option<nat>>>, w: nat, k: nat): nat
    requires Rectangular(grid, w) && k <= w
  {
    if k == 0 then 0 else SumOfColumns(grid, w, k - 1) + SumColumn(grid, w, k - 1)
  }

  lemma {:induction false} SumOfColumnsSnoc(grid: seq<seq<Option<nat>>>, row: seq<Option<nat>>, w: nat, k: nat)
    requires Rectangular(grid, w) && |row| == w && k <= w
    ensures Rectangular(grid + [row], w)
    ensures SumOfColumns(grid + [row], w, k) == SumOfColumns(grid, w, k) + SumCells(row[..k])
  {
    assert (grid + [row])[..|grid|] == grid;
    if k > 0 {
      SumOfColumnsSnoc(grid, row, w, k - 1);
      assert row[..k][..k - 1] == row[..k - 1];
    }
  }

  /** Adding every cell by rows or by columns gives the same total. */
  lemma {:induction false} DoubleCount(grid: seq<seq<Option<nat>>>, w: nat)
    requires Rectangular(grid, w)
    ensures SumOfRows(grid) == SumOfColumns(grid, w, w)
  {
    if grid == [] {
      ZeroColumns(w, w);
    } else {
      var init := grid[..|grid| - 1];
      var row := grid[|grid| - 1];
      DoubleCount(init, w);
      SumOfColumnsSnoc(init, row, w, w);
      assert init + [row] == grid;
      assert row[..w] == row;
    }
  }

  lemma {:induction false} ZeroColumns(w: nat, k: nat)
    requires k <= w
    ensures SumOfColumns([], w, k) == 0
  {
    if k > 0 {
      ZeroColumns(w, k - 1);
    }
  }

  // ---------------------------------------------------------------------
  // The table before filtering

  /** The cells of class-list row `r` under the date columns: 1 where the
      row was marked, NaN elsewhere. */
  function Cells(marks: map<Date, set<nat>>, cols: seq<Date>, r: nat): (cells: seq<Option<nat>>)
    ensures |cells| == |cols|
  {
    seq(|cols|, k requires 0 <= k < |cols| => if r in Column(marks, cols[k]) then Some(1) else None)
  }

  function Grid(marks: map<Date, set<nat>>, cols: seq<Date>, n: nat): (grid: seq<seq<Option<nat>>>)
    ensures |grid| == n && Rectangular(grid, |cols|)
  {
    seq(n, r requires 0 <= r < n => Cells(marks, cols, r))
  }

  /** A row of the summary: a class-list row (by position), the totals
      row, or the blank row the Norwegian edition adds to an empty table. */
  datatype RowKind = Entry(index: nat) | Totals | Blank

  datatype Row = Row(kind: RowKind, cells: seq<Option<nat>>, times: Option<nat>)

  /** Line 188: the totals row holds the sum of each date column. */
  function TotalsCells(marks: map<Date, set<nat>>, cols: seq<Date>, n: nat): (cells: seq<Option<nat>>)
    ensures |cells| == |cols|
  {
    var grid := Grid(marks, cols, n);
    seq(|cols|, k requires 0 <= k < |cols| => Some(SumColumn(grid, |cols|, k)))
  }

  function EntryRow(marks: map<Date, set<nat>>, cols: seq<Date>, r: nat): Row {
    Row(Entry(r), Cells(marks, cols, r), Some(SumCells(Cells(marks, cols, r))))
  }

  function TotalsRow(marks: map<Date, set<nat>>, cols: seq<Date>, n: nat): Row {
    Row(Totals, TotalsCells(marks, cols, n), Some(SumCells(TotalsCells(marks, cols, n))))
  }

  function Entries(marks: map<Date, set<nat>>, cols: seq<Date>, n: nat): (rows: seq<Row>)
    ensures |rows| == n
    ensures forall r :: 0 <= r < n ==> rows[r] == EntryRow(marks, cols, r)
  {
    seq(n, r requires 0 <= r < n => EntryRow(marks, cols, r))
  }

  /** Lines 188-190: the class list with the totals row appended, and every
      row's `TimesPresent` set to the sum of its date cells. */
  function Table(marks: map<Date, set<nat>>, cols: seq<Date>, n: nat): (rows: seq<Row>)
    ensures |rows| == n + 1
    ensures forall r :: 0 <= r < n ==> rows[r] == EntryRow(marks, cols, r)
    ensures rows[n] == TotalsRow(marks, cols, n)
  {
    Entries(marks, cols, n) + [TotalsRow(marks, cols, n)]
  }

  /** The sessions row `r` is marked in, by position among the columns. */
  function Attended(marks: map<Date, set<nat>>, cols: seq<Date>, r: nat): set<nat> {
    set k | 0 <= k < |cols| && r in Column(marks, cols[k])
  }

  /** Some class-list row is marked in some session. */
  predicate AnyoneAttended(marks: map<Date, set<nat>>, cols: seq<Date>, n: nat) {
    exists r :: 0 <= r < n && Attended(marks, cols, r) != {}
  }

  /** The positions among the first `k` sets that hold `r`. */
  ghost function Among(sets: seq<set<nat>>, r: nat, k: nat): set<nat>
    requires k <= |sets|
  {
    set j | 0 <= j < k && r in sets[j]
  }

  lemma AmongGrows(sets: seq<set<nat>>, r: nat, k: nat)
    requires 0 < k <= |sets|
    ensures |Among(sets, r, k)| == |Among(sets, r, k - 1)| + (if r in sets[k - 1] then 1 else 0)
  {
    var before, now := Among(sets, r, k - 1), Among(sets, r, k);
    if r in sets[k - 1] {
      assert now == before + {k - 1};
    } else {
      assert now == before;
    }
  }

  /** The presence columns in column order. */
  function Columns(marks: map<Date, set<nat>>, cols: seq<Date>): (sets: seq<set<nat>>)
    ensures |sets| == |cols|
    ensures forall j :: 0 <= j < |cols| ==> sets[j] == Column(marks, cols[j])
  {
    seq(|cols|, j requires 0 <= j < |cols| => Column(marks, cols[j]))
  }

  /** The first `k` sessions row `r` is marked in. */
  ghost function MarkedAmong(marks: map<Date, set<nat>>, cols: seq<Date>, r: nat, k: nat): set<nat>
    requires k <= |cols|
  {
    Among(Columns(marks, cols), r, k)
  }

  lemma {:induction false} CellsSumCounts(marks: map<Date, set<nat>>, cols: seq<Date>, r: nat, k: nat)
    requires k <= |cols|
    ensures SumCells(Cells(marks, cols, r)[..k]) == |MarkedAmong(marks, cols, r, k)|
  {
    if k > 0 {
      var cells := Cells(marks, cols, r);
      CellsSumCounts(marks, cols, r, k - 1);
      assert cells[..k][..k - 1] == cells[..k - 1];
      assert SumCells(cells[..k]) == SumCells(cells[..k - 1]) + Value(cells[k - 1]);
      AmongGrows(Columns(marks, cols), r, k);
    }
  }

  /** A row's `TimesPresent` is the number of sessions it is marked in. */
  lemma TimesPresentCountsSessions(marks: map<Date, set<nat>>, cols: seq<Date>, r: nat)
    ensures EntryRow(marks, cols, r).times == Some(|Attended(marks, cols, r)|)
  {
    CellsSumCounts(marks, cols, r, |cols|);
    assert Cells(marks, cols, r)[..|cols|] == Cells(marks, cols, r);
    assert MarkedAmong(marks, cols, r, |cols|) == Attended(marks, cols, r);
  }

  /** The rows below `n` marked on the date of column `k`. */
  ghost function MarkedBelow(marks: map<Date, set<nat>>, cols: seq<Date>, n: nat, k: nat): set<nat>
    requires k < |cols|
  {
    set r | 0 <= r < n && r in Column(marks, cols[k])
  }

  lemma MarkedBelowGrows(marks: map<Date, set<nat>>, cols: seq<Date>, n: nat, k: nat)
    requires 0 < n && k < |cols|
    ensures |MarkedBelow(marks, cols, n, k)| == |MarkedBelow(marks, cols, n - 1, k)| + (if n - 1 in Column(marks, cols[k]) then 1 else 0)
  {
    var before, now := MarkedBelow(marks, cols, n - 1, k), MarkedBelow(marks, cols, n, k);
    if n - 1 in Column(marks, cols[k]) {
      assert now == before + {n - 1};
    } else {
      assert now == before;
    }
  }

  lemma {:induction false} ColumnSumCounts(marks: map<Date, set<nat>>, cols: seq<Date>, n: nat, k: nat)
    requires k < |cols|
    ensures SumColumn(Grid(marks, cols, n), |cols|, k) == |MarkedBelow(marks, cols, n, k)|
  {
    if n > 0 {
      var grid := Grid(marks, cols, n);
      ColumnSumCounts(marks, cols, n - 1, k);
      assert grid[..n - 1] == Grid(marks, cols, n - 1);
      MarkedBelowGrows(marks, cols, n, k);
    }
  }

  /** Each cell of the totals row is the number of class-list rows marked
      on that date: the session's head count. */
  lemma TotalsCellIsHeadCount(marks: map<Date, set<nat>>, cols: seq<Date>, n: nat, k: nat)
    requires k < |cols|
    requires forall r :: r in Column(marks, cols[k]) ==> r < n
    ensures TotalsRow(marks, cols, n).cells[k] == Some(|Column(marks, cols[k])|)
  {
    ColumnSumCounts(marks, cols, n, k);
    assert MarkedBelow(marks, cols, n, k) == Column(marks, cols[k]);
  }

  /** The sum of the entry rows' `TimesPresent`. */
  function SumOfTimes(marks: map<Date, set<nat>>, cols: seq<Date>, n: nat): nat {
    if n == 0 then 0 else SumOfTimes(marks, cols, n - 1) + SumCells(Cells(marks, cols, n - 1))
  }

  lemma {:induction false} SumOfTimesIsSumOfRows(marks: map<Date, set<nat>>, cols: seq<Date>, n: nat)
    ensures SumOfTimes(marks, cols, n) == SumOfRows(Grid(marks, cols, n))
  {
    if n > 0 {
      SumOfTimesIsSumOfRows(marks, cols, n - 1);
      assert Grid(marks, cols, n)[..n - 1] == Grid(marks, cols, n - 1);
    }
  }

  lemma {:induction false} SumCellsOfTotals(grid: seq<seq<Option<nat>>>, w: nat, cells: seq<Option<nat>>, k: nat)
    requires Rectangular(grid, w) && |cells| == w && k <= w
    requires forall j :: 0 <= j < w ==> cells[j] == Some(SumColumn(grid, w, j))
    ensures SumCells(cells[..k]) == SumOfColumns(grid, w, k)
  {
    if k > 0 {
      SumCellsOfTotals(grid, w, cells, k - 1);
      assert cells[..k][..k - 1] == cells[..k - 1];
    }
  }

  /** The totals row's own `TimesPresent` (before it is hidden) is the sum
      of every class-list row's `TimesPresent`: line 190 adds up the
      column sums of line 188. */
  lemma TotalsTimesIsSumOfTimes(marks: map<Date, set<nat>>, cols: seq<Date>, n: nat)
    ensures TotalsRow(marks, cols, n).times == Some(SumOfTimes(marks, cols, n))
  {
    var grid := Grid(marks, cols, n);
    var cells := TotalsCells(marks, cols, n);
    SumCellsOfTotals(grid, |cols|, cells, |cols|);
    assert cells[..|cols|] == cells;
    DoubleCount(grid, |cols|);
    SumOfTimesIsSumOfRows(marks, cols, n);
  }

  lemma {:induction false} SumOfTimesPositive(marks: map<Date, set<nat>>, cols: seq<Date>, n: nat)
    ensures SumOfTimes(marks, cols, n) > 0 <==> exists r :: 0 <= r < n && SumCells(Cells(marks, cols, r)) > 0
  {
    if n > 0 {
      SumOfTimesPositive(marks, cols, n - 1);
    }
  }

  // ---------------------------------------------------------------------
  // Filtering, hiding, sorting

  /** English `TimesPresent > 0`; Norwegian `~(Ganger == 0)`, which also
      keeps a NaN sum. */
  predicate Kept(v: Variant, times: Option<nat>) {
    match v
    case English => times.Some? && times.value > 0
    case Norwegian => !(times.Some? && times.value == 0)
  }

  /** The boolean mask followed by `reset_index`: the kept rows, in order. */
  function Keep(v: Variant, rows: seq<Row>): (r: seq<Row>)
    ensures |r| <= |rows|
    ensures forall x :: x in r <==> x in rows && Kept(v, x.times)
  {
    if rows == [] then []
    else
      var init := Keep(v, rows[..|rows| - 1]);
      assert forall x :: x in rows <==> x in rows[..|rows| - 1] || x == rows[|rows| - 1];
      if Kept(v, rows[|rows| - 1].times) then init + [rows[|rows| - 1]] else init
  }

  /** Lines 197-198 / line 124: the last row's sum is set to NaN. The
      English edition does so only on a non-empty table; the Norwegian one
      unconditionally, and `.loc[-1, "Ganger"]` on an empty table adds a
      new row that is blank everywhere. */
  function Hide(v: Variant, rows: seq<Row>, w: nat): seq<Row> {
    if rows != [] then rows[..|rows| - 1] + [rows[|rows| - 1].(times := None)]
    else if v == English then []
    else [Row(Blank, seq(w, k => None), None)]
  }

  /** `sort_values(by=..., ascending=False)`: larger sums first, NaN last. */
  predicate InOrder(a: Row, b: Row) {
    b.times.None? || (a.times.Some? && a.times.value >= b.times.value)
  }

  predicate Ranked(rows: seq<Row>) {
    forall i, j :: 0 <= i < j < |rows| ==> InOrder(rows[i], rows[j])
  }

  function Insert(x: Row, sorted: seq<Row>): (r: seq<Row>)
    ensures multiset(r) == multiset(sorted) + multiset{x}
  {
    if sorted == [] then [x]
    else if InOrder(x, sorted[0]) then [x] + sorted
    else
      assert sorted == [sorted[0]] + sorted[1..];
      [sorted[0]] + Insert(x, sorted[1..])
  }

  lemma {:induction false} InsertRanked(x: Row, sorted: seq<Row>)
    requires Ranked(sorted)
    ensures Ranked(Insert(x, sorted))
  {
    if sorted != [] {
      var r := Insert(x, sorted);
      if InOrder(x, sorted[0]) {
        forall j | 1 <= j < |r| ensures InOrder(r[0], r[j]) {
          assert r[j] == sorted[j - 1];
        }
      } else {
        var rest := Insert(x, sorted[1..]);
        InsertRanked(x, sorted[1..]);
        forall j | 0 <= j < |rest| ensures InOrder(sorted[0], rest[j]) {
          assert rest[j] in multiset(rest);
          if rest[j] != x {
            assert rest[j] in multiset(sorted[1..]);
            var k :| 0 <= k < |sorted[1..]| && sorted[1..][k] == rest[j];
            assert sorted[k + 1] == rest[j];
          }
        }
        assert r == [sorted[0]] + rest;
      }
    }
  }

  /** One admissible outcome of the sort. pandas' default sort is not
      stable, so rows with equal sums may come out in any order; only
      `Ranked` and the permutation are promised. */
  function Rank(rows: seq<Row>): (r: seq<Row>)
    ensures Ranked(r) && multiset(r) == multiset(rows)
  {
    if rows == [] then []
    else
      assert rows == [rows[0]] + rows[1..];
      InsertRanked(rows[0], Rank(rows[1..]));
      Insert(rows[0], Rank(rows[1..]))
  }

  /** The whole summary of a presence table over `n` class-list rows. */
  function Summary(v: Variant, marks: map<Date, set<nat>>, cols: seq<Date>, n: nat): seq<Row> {
    Rank(Hide(v, Keep(v, Table(marks, cols, n)), |cols|))
  }

  // ---------------------------------------------------------------------
  // What the summary holds

  /** The two filters agree on the table: no sum is NaN before hiding. */
  lemma KeepAgrees(marks: map<Date, set<nat>>, cols: seq<Date>, n: nat)
    ensures Keep(English, Table(marks, cols, n)) == Keep(Norwegian, Table(marks, cols, n))
  {
    KeepAgreesOn(Table(marks, cols, n));
  }

  lemma {:induction false} KeepAgreesOn(rows: seq<Row>)
    requires forall x :: x in rows ==> x.times.Some?
    ensures Keep(English, rows) == Keep(Norwegian, rows)
  {
    if rows != [] {
      KeepAgreesOn(rows[..|rows| - 1]);
    }
  }

  /** A class-list row stays in the table exactly when it was marked in at
      least one session. */
  lemma EntryKeptIffAttended(v: Variant, marks: map<Date, set<nat>>, cols: seq<Date>, n: nat, r: nat)
    requires r < n
    ensures EntryRow(marks, cols, r) in Keep(v, Table(marks, cols, n)) <==> Attended(marks, cols, r) != {}
  {
    TimesPresentCountsSessions(marks, cols, r);
    assert Table(marks, cols, n)[r] == EntryRow(marks, cols, r);
  }

  /** The totals row stays exactly when some class-list row stays. */
  lemma TotalsKeptIffAnyoneKept(v: Variant, marks: map<Date, set<nat>>, cols: seq<Date>, n: nat)
    ensures TotalsRow(marks, cols, n) in Keep(v, Table(marks, cols, n))
            <==> exists r :: 0 <= r < n && Attended(marks, cols, r) != {}
  {
    TotalsTimesIsSumOfTimes(marks, cols, n);
    SumOfTimesPositive(marks, cols, n);
    assert Table(marks, cols, n)[n] == TotalsRow(marks, cols, n);
    forall r | 0 <= r < n
      ensures SumCells(Cells(marks, cols, r)) > 0 <==> Attended(marks, cols, r) != {}
    {
      TimesPresentCountsSessions(marks, cols, r);
    }
  }

  lemma KeepSnoc(v: Variant, rows: seq<Row>, x: Row)
    ensures Keep(v, rows + [x]) == if Kept(v, x.times) then Keep(v, rows) + [x] else Keep(v, rows)
  {
    assert (rows + [x])[..|rows|] == rows;
  }

  /** The totals row's sum is positive exactly when some row's sum is. */
  lemma TotalsPositiveIffEntryPositive(marks: map<Date, set<nat>>, cols: seq<Date>, n: nat)
    ensures var entries := Entries(marks, cols, n);
            TotalsRow(marks, cols, n).times.value > 0 <==> exists i :: 0 <= i < |entries| && entries[i].times.value > 0
  {
    var entries := Entries(marks, cols, n);
    TotalsTimesIsSumOfTimes(marks, cols, n);
    SumOfTimesPositive(marks, cols, n);
    if exists i :: 0 <= i < |entries| && entries[i].times.value > 0 {
      var i :| 0 <= i < |entries| && entries[i].times.value > 0;
      assert SumCells(Cells(marks, cols, i)) > 0;
    }
    if exists r :: 0 <= r < n && SumCells(Cells(marks, cols, r)) > 0 {
      var r :| 0 <= r < n && SumCells(Cells(marks, cols, r)) > 0;
      assert entries[r].times.value > 0;
    }
  }

  /** Filtering class-list rows followed by a totals row whose sum is
      positive exactly when some row's is. */
  lemma KeepShape(v: Variant, entries: seq<Row>, totals: Row)
    requires forall i :: 0 <= i < |entries| ==> entries[i].times.Some?
    requires totals.times.Some?
    requires totals.times.value > 0 <==> exists i :: 0 <= i < |entries| && entries[i].times.value > 0
    ensures var kept := Keep(v, entries + [totals]);
            && (forall i :: 0 <= i < |kept| ==> kept[i].times.Some? && kept[i].times.value > 0)
            && (kept != [] ==> kept[|kept| - 1] == totals)
            && (forall i :: 0 <= i < |kept| - 1 ==> kept[i] in entries)
  {
    KeepSnoc(v, entries, totals);
    var ke := Keep(v, entries);
    if ke != [] {
      assert ke[0] in entries;
    }
  }

  /** Only rows with a positive sum survive, and when any survives the
      totals row is the last of them, so line 198 hides the totals. */
  lemma KeptTableShape(v: Variant, marks: map<Date, set<nat>>, cols: seq<Date>, n: nat)
    ensures var kept := Keep(v, Table(marks, cols, n));
            && (forall i :: 0 <= i < |kept| ==> kept[i].times.Some? && kept[i].times.value > 0)
            && (kept != [] ==> kept[|kept| - 1] == TotalsRow(marks, cols, n))
            && (forall i :: 0 <= i < |kept| - 1 ==> kept[i] in Entries(marks, cols, n))
  {
    TotalsPositiveIffEntryPositive(marks, cols, n);
    KeepShape(v, Entries(marks, cols, n), TotalsRow(marks, cols, n));
  }

  /** Every entry row is the row of a class-list position. */
  lemma EntriesAreEntries(marks: map<Date, set<nat>>, cols: seq<Date>, n: nat, x: Row)
    requires x in Entries(marks, cols, n)
    ensures x.kind.Entry? && x.kind.index < n
  {
  }

  lemma {:induction false} NoneRowsTrail(rows: seq<Row>, i: nat, j: nat)
    requires Ranked(rows) && i < j < |rows| && rows[i].times.None?
    ensures rows[j].times.None?
  {
  }

  lemma TwoPlaces(rows: seq<Row>, i: nat, j: nat)
    requires i < j < |rows| && rows[i] == rows[j]
    ensures multiset(rows)[rows[i]] >= 2
  {
    assert rows == rows[..i] + [rows[i]] + rows[i + 1..j] + [rows[j]] + rows[j + 1..];
  }

  lemma SameMembers(a: seq<Row>, b: seq<Row>)
    requires multiset(a) == multiset(b)
    ensures forall x :: x in a <==> x in b
  {
    forall x ensures x in a <==> x in b {
      assert x in a <==> x in multiset(a);
      assert x in b <==> x in multiset(b);
    }
  }

  /** Summary rows are the hidden table's rows, reordered. */
  lemma SummaryMembers(v: Variant, marks: map<Date, set<nat>>, cols: seq<Date>, n: nat)
    ensures var s := Summary(v, marks, cols, n);
            multiset(s) == multiset(Hide(v, Keep(v, Table(marks, cols, n)), |cols|))
            && forall x :: x in s <==> x in Hide(v, Keep(v, Table(marks, cols, n)), |cols|)
  {
    SameMembers(Summary(v, marks, cols, n), Hide(v, Keep(v, Table(marks, cols, n)), |cols|));
  }

  /** A summary row that stands for a class-list position is that
      position's row, with its cells and its sum. */
  lemma SummaryEntryRow(v: Variant, marks: map<Date, set<nat>>, cols: seq<Date>, n: nat, x: Row)
    requires x in Summary(v, marks, cols, n) && x.kind.Entry?
    ensures x.kind.index < n && x == EntryRow(marks, cols, x.kind.index)
  {
    var kept := Keep(v, Table(marks, cols, n));
    SummaryMembers(v, marks, cols, n);
    KeptTableShape(v, marks, cols, n);
    if kept != [] {
      assert Hide(v, kept, |cols|) == kept[..|kept| - 1] + [kept[|kept| - 1].(times := None)];
      var i :| 0 <= i < |kept| - 1 && kept[i] == x;
      EntriesAreEntries(marks, cols, n, x);
    }
  }

  lemma SummaryEntries(v: Variant, marks: map<Date, set<nat>>, cols: seq<Date>, n: nat, r: nat)
    requires r < n
    ensures EntryRow(marks, cols, r) in Summary(v, marks, cols, n) <==> Attended(marks, cols, r) != {}
  {
    var kept := Keep(v, Table(marks, cols, n));
    var hidden := Hide(v, kept, |cols|);
    SummaryMembers(v, marks, cols, n);
    KeptTableShape(v, marks, cols, n);
    EntryKeptIffAttended(v, marks, cols, n, r);
    if kept != [] {
      assert hidden == kept[..|kept| - 1] + [kept[|kept| - 1].(times := None)];
      assert EntryRow(marks, cols, r) in kept <==> EntryRow(marks, cols, r) in kept[..|kept| - 1];
    }
  }

  /** In a ranked list, a row with no sum that occurs once and is the
      only row with no sum is the last row. */
  lemma {:induction false} UniqueNoneIsLast(s: seq<Row>, last: Row)
    requires Ranked(s) && last in s && last.times.None? && multiset(s)[last] == 1
    requires forall y :: y in s && y.times.None? ==> y == last
    ensures s != [] && s[|s| - 1] == last
    ensures forall i :: 0 <= i < |s| - 1 ==> s[i].times.Some?
  {
    var p :| 0 <= p < |s| && s[p] == last;
    if p < |s| - 1 {
      NoneRowsTrail(s, p, |s| - 1);
      TwoPlaces(s, p, |s| - 1);
    }
    forall i | 0 <= i < |s| - 1 ensures s[i].times.Some? {
      if s[i].times.None? {
        TwoPlaces(s, i, |s| - 1);
      }
    }
  }

  /** Before sorting: the kept class-list rows, then the totals row with its
      sum hidden. */
  lemma HideShape(v: Variant, kept: seq<Row>, w: nat)
    requires kept != [] && forall i :: 0 <= i < |kept| ==> kept[i].times.Some?
    ensures var hidden := Hide(v, kept, w);
            var last := kept[|kept| - 1].(times := None);
            && last in hidden
            && multiset(hidden)[last] == 1
            && (forall y :: y in hidden && y != last ==> y in kept[..|kept| - 1])
  {
    var last := kept[|kept| - 1].(times := None);
    var front := kept[..|kept| - 1];
    assert Hide(v, kept, w) == front + [last];
    assert last !in front;
  }

  lemma HiddenShape(v: Variant, marks: map<Date, set<nat>>, cols: seq<Date>, n: nat)
    requires exists r :: 0 <= r < n && Attended(marks, cols, r) != {}
    ensures var hidden := Hide(v, Keep(v, Table(marks, cols, n)), |cols|);
            var last := TotalsRow(marks, cols, n).(times := None);
            && last in hidden
            && multiset(hidden)[last] == 1
            && (forall y :: y in hidden && y != last ==> y.kind.Entry? && y.times.Some? && y.times.value > 0)
  {
    var kept := Keep(v, Table(marks, cols, n));
    KeptTableShape(v, marks, cols, n);
    TotalsKeptIffAnyoneKept(v, marks, cols, n);
    HideShape(v, kept, |cols|);
    forall y | y in Hide(v, kept, |cols|) && y != TotalsRow(marks, cols, n).(times := None)
      ensures y.kind.Entry? && y.times.Some? && y.times.value > 0
    {
      var i :| 0 <= i < |kept| - 1 && kept[i] == y;
      EntriesAreEntries(marks, cols, n, y);
    }
  }

  lemma SummaryWhenAttended(v: Variant, marks: map<Date, set<nat>>, cols: seq<Date>, n: nat)
    requires exists r :: 0 <= r < n && Attended(marks, cols, r) != {}
    ensures var s := Summary(v, marks, cols, n);
            && s != []
            && s[|s| - 1] == TotalsRow(marks, cols, n).(times := None)
            && (forall i :: 0 <= i < |s| - 1 ==> s[i].kind.Entry? && s[i].times.Some? && s[i].times.value > 0)
  {
    var s := Summary(v, marks, cols, n);
    var last := TotalsRow(marks, cols, n).(times := None);
    HiddenShape(v, marks, cols, n);
    SummaryMembers(v, marks, cols, n);
    UniqueNoneIsLast(s, last);
    forall i | 0 <= i < |s| - 1 ensures s[i].kind.Entry? && s[i].times.Some? && s[i].times.value > 0 {
      assert s[i] in s;
    }
  }

  /** The finished attendance sheet. When anyone attended: every class-list
      row that attended and no other, each with its session count, sorted
      by that count, and the totals row last with its sum hidden. When
      nobody attended: nothing for the English edition, one blank row for
      the Norwegian one. */
  lemma SummaryShape(v: Variant, marks: map<Date, set<nat>>, cols: seq<Date>, n: nat)
    ensures var s := Summary(v, marks, cols, n);
            && Ranked(s)
            && (forall r :: 0 <= r < n ==> (EntryRow(marks, cols, r) in s <==> Attended(marks, cols, r) != {}))
            && ((exists r :: 0 <= r < n && Attended(marks, cols, r) != {}) ==>
                  && s != []
                  && s[|s| - 1] == TotalsRow(marks, cols, n).(times := None)
                  && (forall i :: 0 <= i < |s| - 1 ==> s[i].kind.Entry? && s[i].times.Some? && s[i].times.value > 0))
            && ((forall r :: 0 <= r < n ==> Attended(marks, cols, r) == {}) ==>
                  s == (if v == English then [] else [Row(Blank, seq(|cols|, k => None), None)]))
  {
    forall r | 0 <= r < n ensures EntryRow(marks, cols, r) in Summary(v, marks, cols, n) <==> Attended(marks, cols, r) != {} {
      SummaryEntries(v, marks, cols, n, r);
    }
    if exists r :: 0 <= r < n && Attended(marks, cols, r) != {} {
      SummaryWhenAttended(v, marks, cols, n);
    } else {
      KeptTableShape(v, marks, cols, n);
      TotalsKeptIffAnyoneKept(v, marks, cols, n);
      assert Keep(v, Table(marks, cols, n)) == [];
    }
  }

  /** The numbers of the summary: each class-list row in it carries the
      number of sessions it attended, and when anyone attended the totals
      row comes last with its own sum hidden and, under each date, the
      number of rows marked on that date. */
  lemma SummaryCounts(v: Variant, marks: map<Date, set<nat>>, cols: seq<Date>, n: nat)
    requires forall k, r :: 0 <= k < |cols| && r in Column(marks, cols[k]) ==> r < n
    ensures var s := Summary(v, marks, cols, n);
            && (forall i :: 0 <= i < |s| && s[i].kind.Entry? ==>
                  s[i].kind.index < n && s[i].times == Some(|Attended(marks, cols, s[i].kind.index)|))
            && (AnyoneAttended(marks, cols, n) ==>
                  && s != []
                  && s[|s| - 1].kind.Totals? && s[|s| - 1].times.None?
                  && |s[|s| - 1].cells| == |cols|
                  && forall k :: 0 <= k < |cols| ==> s[|s| - 1].cells[k] == Some(|Column(marks, cols[k])|))
  {
    var s := Summary(v, marks, cols, n);
    forall i | 0 <= i < |s| && s[i].kind.Entry?
      ensures s[i].kind.index < n && s[i].times == Some(|Attended(marks, cols, s[i].kind.index)|)
    {
      SummaryEntryRow(v, marks, cols, n, s[i]);
      TimesPresentCountsSessions(marks, cols, s[i].kind.index);
    }
    if exists r :: 0 <= r < n && Attended(marks, cols, r) != {} {
      SummaryWhenAttended(v, marks, cols, n);
      forall k | 0 <= k < |cols| ensures s[|s| - 1].cells[k] == Some(|Column(marks, cols[k])|) {
        TotalsCellIsHeadCount(marks, cols, n, k);
      }
    }
  }

  /** The two editions' summaries differ only for a table nobody attended:
      then the English one is empty and the Norwegian one a blank row. */
  lemma EditionsSummariseAlike(marks: map<Date, set<nat>>, cols: seq<Date>, n: nat)
    ensures (exists r :: 0 <= r < n && Attended(marks, cols, r) != {})
            <==> Summary(English, marks, cols, n) == Summary(Norwegian, marks, cols, n)
  {
    KeepAgrees(marks, cols, n);
    if exists r :: 0 <= r < n && Attended(marks, cols, r) != {} {
      TotalsKeptIffAnyoneKept(English, marks, cols, n);
    } else {
      SummaryShape(English, marks, cols, n);
      SummaryShape(Norwegian, marks, cols, n);
    }
  }
}
