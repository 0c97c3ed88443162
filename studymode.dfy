/**
 * The study view (src/components/StudyMode.tsx): the table buttons, which of
 * them is marked active, and the 10×10 multiplication grid with the selected
 * table's row and column highlighted.
 */
module StudyMode {
  import opened Wrappers
  import opened MultiplicationSlice

  /** The numbers of the ten table buttons. */
  const TableNumbers: seq<int> := [1, 2, 3, 4, 5, 6, 7, 8, 9, 10]

  /** The number the "Все таблицы" button selects. */
  const AllTables: int := 0

  /** The buttons in display order: the ten tables, then the all-tables button. */
  function Buttons(): seq<int> {
    TableNumbers + [AllTables]
  }

  /** `handleTableSelect`: a button stores its number as the active table. */
  method HandleTableSelect(store: Store, num: int)
    modifies store
    ensures store.Snapshot() == old(store.Snapshot()).(activeTable := Some(num))
  {
    store.SetActiveTable(Some(num));
  }

  /** A button is marked active when the store holds its number. */
  predicate IsActiveButton(activeTable: Option<int>, num: int) {
    activeTable == Some(num)
  }

  /**
   * Some button is marked active exactly when the active table is one of 0..10,
   * and never two buttons at once.
   */
  lemma ActiveButtonIsUnique(activeTable: Option<int>)
    ensures (exists k :: 0 <= k < |Buttons()| && IsActiveButton(activeTable, Buttons()[k]))
            <==> activeTable.Some? && 0 <= activeTable.value <= 10
    ensures forall k1, k2 :: 0 <= k1 < k2 < |Buttons()| ==>
              !(IsActiveButton(activeTable, Buttons()[k1]) && IsActiveButton(activeTable, Buttons()[k2]))
  {
    var b := Buttons();
    assert forall k :: 0 <= k < 10 ==> b[k] == k + 1;
    assert b[10] == 0;
    if activeTable.Some? && 0 <= activeTable.value <= 10 {
      var v := activeTable.value;
      var k := if v == 0 then 10 else v - 1;
      assert IsActiveButton(activeTable, b[k]);
    }
  }

  /** A cell is highlighted when a table other than "all" is selected and the cell lies in its row or column. */
  predicate IsHighlighted(activeTable: Option<int>, i: int, j: int) {
    activeTable.Some? && activeTable.value != 0 && (i == activeTable.value || j == activeTable.value)
  }

  datatype Cell = Cell(value: int, highlighted: bool)

  /** A grid row: its header number and its ten cells. */
  datatype Row = Row(number: int, cells: seq<Cell>)

  /** The header row's numbers and the ten rows below it. */
  datatype Table = Table(header: seq<int>, rows: seq<Row>)

  /** Row i shows i × 1 … i × 10, highlighted by the rule. */
  predicate IsRowFor(row: Row, activeTable: Option<int>, i: int) {
    && row.number == i
    && |row.cells| == 10
    && forall j :: 0 <= j < 10 ==> row.cells[j] == Cell(i * (j + 1), IsHighlighted(activeTable, i, j + 1))
  }

  /** The header lists 1..10 and row k is the row of k + 1. */
  predicate IsGridFor(t: Table, activeTable: Option<int>) {
    && |t.header| == 10
    && (forall k :: 0 <= k < 10 ==> t.header[k] == k + 1)
    && |t.rows| == 10
    && forall k :: 0 <= k < 10 ==> IsRowFor(t.rows[k], activeTable, k + 1)
  }

  /** `renderMultiplicationTable`: the header row, then the ten rows built cell by cell. */
  method RenderMultiplicationTable(activeTable: Option<int>) returns (t: Table)
    ensures IsGridFor(t, activeTable)
  {
    var header: seq<int> := [];
    var i := 1;
    while i <= 10
      invariant 1 <= i <= 11
      invariant |header| == i - 1 && forall k :: 0 <= k < i - 1 ==> header[k] == k + 1
    {
      header := header + [i];
      i := i + 1;
    }
    var rows: seq<Row> := [];
    i := 1;
    while i <= 10
      invariant 1 <= i <= 11
      invariant |rows| == i - 1 && forall k :: 0 <= k < i - 1 ==> IsRowFor(rows[k], activeTable, k + 1)
    {
      var cells: seq<Cell> := [];
      var j := 1;
      while j <= 10
        invariant 1 <= j <= 11
        invariant |cells| == j - 1
        invariant forall k :: 0 <= k < j - 1 ==> cells[k] == Cell(i * (k + 1), IsHighlighted(activeTable, i, k + 1))
      {
        var isHighlighted := activeTable.Some? && activeTable.value != 0
                             && (i == activeTable.value || j == activeTable.value);
        cells := cells + [Cell(i * j, isHighlighted)];
        j := j + 1;
      }
      rows := rows + [Row(i, cells)];
      i := i + 1;
    }
    t := Table(header, rows);
  }

  function CountInRow(cells: seq<Cell>): nat {
    if cells == [] then 0
    else CountInRow(cells[..|cells| - 1]) + (if cells[|cells| - 1].highlighted then 1 else 0)
  }

  function CountInGrid(rows: seq<Row>): nat {
    if rows == [] then 0
    else CountInGrid(rows[..|rows| - 1]) + CountInRow(rows[|rows| - 1].cells)
  }

  /** A table other than "all" is selected. */
  predicate Selects(activeTable: Option<int>) {
    activeTable.Some? && activeTable.value != 0
  }

  /** Among the first n cells of row i: all of them in the selected row, otherwise the one in the selected column, if any. */
  lemma {:induction false} RowPrefixCount(row: Row, activeTable: Option<int>, i: int, n: nat)
    requires IsRowFor(row, activeTable, i) && n <= 10
    ensures CountInRow(row.cells[..n]) ==
      if !Selects(activeTable) then 0
      else if i == activeTable.value then n
      else if 1 <= activeTable.value <= n then 1
      else 0
  {
    if n > 0 {
      assert row.cells[..n][..n - 1] == row.cells[..n - 1];
      RowPrefixCount(row, activeTable, i, n - 1);
    }
  }

  /** Highlighted cells in the first m rows: the selected row (if among them) plus one cell of each other row. */
  lemma {:induction false} GridPrefixCount(t: Table, activeTable: Option<int>, m: nat)
    requires IsGridFor(t, activeTable) && m <= 10
    ensures CountInGrid(t.rows[..m]) ==
      if !Selects(activeTable) then 0
      else if 1 <= activeTable.value <= m then 10 + (m - 1)
      else if 1 <= activeTable.value <= 10 then m
      else 0
  {
    if m > 0 {
      assert t.rows[..m][..m - 1] == t.rows[..m - 1];
      GridPrefixCount(t, activeTable, m - 1);
      RowPrefixCount(t.rows[m - 1], activeTable, m, 10);
      assert t.rows[m - 1].cells[..10] == t.rows[m - 1].cells;
    }
  }

  /** Selecting table a in 1..10 highlights its row and column, 19 cells; null, "all" or any other number highlights none. */
  lemma HighlightCount(t: Table, activeTable: Option<int>)
    requires IsGridFor(t, activeTable)
    ensures CountInGrid(t.rows) == if activeTable.Some? && 1 <= activeTable.value <= 10 then 19 else 0
  {
    GridPrefixCount(t, activeTable, 10);
    assert t.rows[..10] == t.rows;
  }
}
