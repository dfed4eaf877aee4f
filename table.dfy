/**
 * The selectable table widget: a fixed sequence of rows, the underlying
 * widget's cursor, and a set of selected row indices that the keys of the
 * multi-select mode change. Callbacks are modelled as the Callback value
 * Update returns; drawing and styling are not modelled, a rendering is the
 * TableView record it would draw.
 */
module Table {
  import opened Wrappers

  type Row = seq<string>

  datatype Column = Column(title: string, width: nat)

  const DefaultTitle := "Table"
  const DefaultHelp := "↑/↓: Navigate • space: Select • a: Select All • enter: Action • q: Quit"
  const Checkmark := "✓"
  /** The column View prepends to show the selection. */
  const IndicatorColumn := Column("", 2)

  /**
   * Key events. "q", "ctrl+c" and "esc" quit; Navigate stands for every
   * other message, which the underlying table widget handles and which may
   * move its cursor to `cursor`.
   */
  datatype Key = Q | CtrlC | Esc | Space | A | Enter | Navigate(cursor: nat)

  /** What Update asks the event loop to do next. */
  datatype Cmd = NoCmd | Quit | WidgetCmd

  /** The callback an Update fires, if any. */
  datatype Callback = NoCallback | OnSelect(row: Row) | OnMultiSelect(rows: seq<Row>)

  /** What View draws: title, the "N items selected" count, the grid and its cursor, help. */
  datatype TableView = TableView(
    title: string, selectedCount: Option<nat>, columns: seq<Column>, grid: seq<Row>, cursor: nat, help: string)

  /** The valid row indices of a table with `n` rows. */
  function Indices(n: nat): (s: set<int>)
    ensures forall i :: i in s <==> 0 <= i < n
  {
    if n == 0 then {} else Indices(n - 1) + {n - 1}
  }

  /** The selection after toggling index `i`. */
  function Toggle(sel: set<int>, i: int): (r: set<int>)
    ensures i in r <==> i !in sel
    ensures forall j :: j != i ==> (j in r <==> j in sel)
    ensures |r| == if i in sel then |sel| - 1 else |sel| + 1
  {
    if i in sel then sel - {i} else sel + {i}
  }

  lemma ToggleTwice(sel: set<int>, i: int)
    ensures Toggle(Toggle(sel, i), i) == sel
  {
  }

  /** The selection after toggling at each cursor position in turn. */
  function ApplyToggles(sel: set<int>, cursors: seq<int>): set<int>
    decreases |cursors|
  {
    if cursors == [] then sel else ApplyToggles(Toggle(sel, cursors[0]), cursors[1..])
  }

  /** Whether `i` occurs an odd number of times in `cursors`. */
  function OddlyOften(cursors: seq<int>, i: int): bool
    decreases |cursors|
  {
    if cursors == [] then false else OddlyOften(cursors[1..], i) != (cursors[0] == i)
  }

  /** An index ends up selected exactly when it started selected xor it was toggled an odd number of times. */
  lemma {:induction false} ToggleParity(sel: set<int>, cursors: seq<int>, i: int)
    ensures i in ApplyToggles(sel, cursors) <==> ((i in sel) != OddlyOften(cursors, i))
    decreases |cursors|
  {
    if cursors != [] {
      ToggleParity(Toggle(sel, cursors[0]), cursors[1..], i);
    }
  }

  /** OddlyOften counts parity: it holds exactly when the multiplicity of `i` is odd. */
  lemma {:induction false} OddlyOftenCounts(cursors: seq<int>, i: int)
    ensures OddlyOften(cursors, i) <==> multiset(cursors)[i] % 2 == 1
    decreases |cursors|
  {
    if cursors != [] {
      OddlyOftenCounts(cursors[1..], i);
      CountAfterHead(cursors, i);
    }
  }

  /** How often `i` occurs in a non-empty sequence: once for the head if it is `i`, plus its occurrences in the tail. */
  lemma CountAfterHead(cursors: seq<int>, i: int)
    requires cursors != []
    ensures multiset(cursors)[i] == multiset(cursors[1..])[i] + (if cursors[0] == i then 1 else 0)
  {
    assert cursors == [cursors[0]] + cursors[1..];
    assert multiset(cursors) == multiset{cursors[0]} + multiset(cursors[1..]);
  }

  /** The selection depends on how often each row was toggled, not on the order of the toggles. */
  lemma ToggleOrderIrrelevant(sel: set<int>, cursors: seq<int>, reordered: seq<int>)
    requires multiset(cursors) == multiset(reordered)
    ensures ApplyToggles(sel, cursors) == ApplyToggles(sel, reordered)
  {
    forall i ensures i in ApplyToggles(sel, cursors) <==> i in ApplyToggles(sel, reordered) {
      ToggleParity(sel, cursors, i);
      ToggleParity(sel, reordered, i);
      OddlyOftenCounts(cursors, i);
      OddlyOftenCounts(reordered, i);
    }
  }

  predicate StrictlyIncreasing(idx: seq<nat>) {
    forall k, l :: 0 <= k < l < |idx| ==> idx[k] < idx[l]
  }

  /** The selected indices below `n`, in increasing order. */
  function SelectedIndices(n: nat, sel: set<int>): (idx: seq<nat>)
    ensures forall k :: 0 <= k < |idx| ==> idx[k] < n && idx[k] in sel
  {
    if n == 0 then [] else SelectedIndices(n - 1, sel) + (if n - 1 in sel then [n - 1] else [])
  }

  /**
   * The selected indices are exactly the selected indices below `n`, in
   * strictly increasing order: the selected rows are a subsequence of the
   * table's rows in their original order.
   */
  lemma {:induction false} SelectedIndicesExact(n: nat, sel: set<int>)
    ensures forall i :: i in SelectedIndices(n, sel) <==> 0 <= i < n && i in sel
    ensures StrictlyIncreasing(SelectedIndices(n, sel))
  {
    if n > 0 {
      SelectedIndicesExact(n - 1, sel);
      var prev := SelectedIndices(n - 1, sel);
      var idx := SelectedIndices(n, sel);
      assert idx[..|prev|] == prev;
      forall k, l | 0 <= k < l < |idx| ensures idx[k] < idx[l] {
        if l < |prev| {
          assert idx[k] == prev[k] && idx[l] == prev[l];
        } else {
          assert idx[k] == prev[k] && idx[l] == n - 1;
        }
      }
    }
  }

  /** The rows at positions `idx`, in that order. */
  function Pick(rows: seq<Row>, idx: seq<nat>): seq<Row>
    requires forall k :: 0 <= k < |idx| ==> idx[k] < |rows|
  {
    seq(|idx|, k requires 0 <= k < |idx| => rows[idx[k]])
  }

  /** The rows whose index is selected, in their original order. */
  function SelectedRows(rows: seq<Row>, sel: set<int>): (picked: seq<Row>)
    ensures forall k :: 0 <= k < |picked| ==> picked[k] in rows
  {
    Pick(rows, SelectedIndices(|rows|, sel))
  }

  lemma {:induction false} AllIndicesSelected(n: nat, sel: set<int>)
    requires Indices(n) <= sel
    ensures SelectedIndices(n, sel) == seq(n, i => i)
  {
    if n > 0 {
      AllIndicesSelected(n - 1, sel);
      assert n - 1 in sel;
      assert SelectedIndices(n, sel) == SelectedIndices(n - 1, sel) + [n - 1];
      assert seq(n, i => i) == seq(n - 1, i => i) + [n - 1];
    }
  }

  /** Once every index is selected, the selected rows are all rows in order. */
  lemma SelectAllGivesAllRows(rows: seq<Row>, sel: set<int>)
    requires Indices(|rows|) <= sel
    ensures SelectedRows(rows, sel) == rows
  {
    AllIndicesSelected(|rows|, sel);
  }

  lemma {:induction false} NoIndicesSelected(n: nat)
    ensures SelectedIndices(n, {}) == []
  {
    if n > 0 {
      NoIndicesSelected(n - 1);
    }
  }

  /** With nothing selected there are no selected rows. */
  lemma NothingSelectedGivesNoRows(rows: seq<Row>)
    ensures SelectedRows(rows, {}) == []
  {
    NoIndicesSelected(|rows|);
  }

  /** The selected indices below `n`, as a set. */
  function InRange(sel: set<int>, n: nat): (r: set<int>)
    ensures forall i :: i in r <==> i in sel && 0 <= i < n
  {
    if n == 0 then {} else InRange(sel, n - 1) + (if n - 1 in sel then {n - 1} else {})
  }

  /** There is one selected index in the sequence per selected index below `n`. */
  lemma {:induction false} SelectedIndicesCount(n: nat, sel: set<int>)
    ensures |SelectedIndices(n, sel)| == |InRange(sel, n)|
  {
    if n > 0 {
      SelectedIndicesCount(n - 1, sel);
      assert n - 1 !in InRange(sel, n - 1);
    }
  }

  /** There are as many selected rows as selected indices in range. */
  lemma SelectedRowsCount(rows: seq<Row>, sel: set<int>)
    ensures |SelectedRows(rows, sel)| == |InRange(sel, |rows|)|
  {
    SelectedIndicesCount(|rows|, sel);
  }

  function Indicator(selected: bool): string {
    if selected then Checkmark else ""
  }

  /** Each row with the indicator cell prepended: a checkmark when its index is selected, empty otherwise. */
  function Decorate(rows: seq<Row>, sel: set<int>): (grid: seq<Row>)
    ensures |grid| == |rows|
    ensures forall i :: 0 <= i < |rows| ==> |grid[i]| == |rows[i]| + 1
  {
    seq(|rows|, i requires 0 <= i < |rows| => [Indicator(i in sel)] + rows[i])
  }

  /** The row indices a drawn grid marks with a checkmark. */
  function Marked(grid: seq<Row>): set<int> {
    set i | 0 <= i < |grid| && |grid[i]| > 0 && grid[i][0] == Checkmark
  }

  /** A drawn grid without its indicator column. */
  function StripIndicator(grid: seq<Row>): seq<Row> {
    seq(|grid|, i requires 0 <= i < |grid| => if |grid[i]| > 0 then grid[i][1..] else grid[i])
  }

  /**
   * The indicator column agrees with the selection, and the base rows are
   * shown unchanged after it.
   */
  lemma DecorateAgrees(rows: seq<Row>, sel: set<int>)
    ensures Marked(Decorate(rows, sel)) == sel * Indices(|rows|)
    ensures StripIndicator(Decorate(rows, sel)) == rows
  {
    var grid := Decorate(rows, sel);
    forall i | 0 <= i < |rows| ensures grid[i][0] == Indicator(i in sel) && grid[i][1..] == rows[i] {
    }
    assert "" != Checkmark;
  }

  /**
   * The callback the commit key fires: the multi-selection callback with the
   * selected rows when in multi-select mode, the selection is non-empty and the
   * callback is set; the single-selection callback with the cursor's row when in
   * single-select mode, the callback is set and there are rows; otherwise none.
   */
  function Commit(rows: seq<Row>, cursor: nat, sel: set<int>, multiSelectMode: bool,
                  hasOnSelect: bool, hasOnMultiSelect: bool): (f: Callback)
    requires rows != [] ==> cursor < |rows|
    ensures f.OnMultiSelect? <==> multiSelectMode && |sel| > 0 && hasOnMultiSelect
    ensures f.OnSelect? <==> !multiSelectMode && hasOnSelect && rows != []
    ensures f.OnMultiSelect? ==> f.rows == SelectedRows(rows, sel)
    ensures f.OnSelect? ==> f.row == rows[cursor]
  {
    if multiSelectMode && |sel| > 0 && hasOnMultiSelect then OnMultiSelect(SelectedRows(rows, sel))
    else if !multiSelectMode && hasOnSelect && |rows| > 0 then OnSelect(rows[cursor])
    else NoCallback
  }

  /** ui.TableModel. */
  class TableModel {
    const columns: seq<Column>
    const rows: seq<Row>
    /** The underlying table widget's cursor. */
    var cursor: nat
    var title: string
    var help: string
    var hasOnSelect: bool
    var hasOnMultiSelect: bool
    var selected: set<int>
    var multiSelectMode: bool

    /**
     * The cursor is on a row, and only rows are selected. On an empty table the
     * widget's cursor is 0, so a toggle there records index 0 for which there is no row.
     */
    ghost predicate Valid()
      reads this
    {
      && (rows == [] ==> cursor == 0 && selected <= {0})
      && (rows != [] ==> cursor < |rows| && selected <= Indices(|rows|))
    }

    /** NewTableModel, over a widget freshly built from `columns` and `rows`. */
    constructor (columns: seq<Column>, rows: seq<Row>)
      ensures Valid()
      ensures this.columns == columns && this.rows == rows && cursor == 0
      ensures title == DefaultTitle && help == DefaultHelp
      ensures selected == {} && !multiSelectMode && !hasOnSelect && !hasOnMultiSelect
    {
      this.columns := columns;
      this.rows := rows;
      cursor := 0;
      title := DefaultTitle;
      help := DefaultHelp;
      hasOnSelect, hasOnMultiSelect := false, false;
      selected := {};
      multiSelectMode := false;
    }

    function IsRowSelected(index: int): (b: bool)
      reads this
      requires Valid()
      ensures b <==> index in selected
      ensures b ==> 0 <= index < |rows| || (rows == [] && index == 0)
    {
      index in selected
    }

    /** Flips the membership of the cursor's index. */
    method ToggleRow()
      requires Valid()
      modifies this`selected
      ensures Valid()
      ensures selected == Toggle(old(selected), cursor)
    {
      if cursor in selected {
        selected := selected - {cursor};
      } else {
        selected := selected + {cursor};
      }
    }

    method GetSelectedRows() returns (r: seq<Row>)
      ensures r == SelectedRows(rows, selected)
    {
      r := [];
      for i := 0 to |rows|
        invariant r == Pick(rows, SelectedIndices(i, selected))
      {
        if i in selected {
          ghost var idx := SelectedIndices(i, selected);
          assert Pick(rows, idx + [i]) == Pick(rows, idx) + [rows[i]];
          r := r + [rows[i]];
        }
      }
    }

    /** Adds every row index to the selection and removes none. */
    method SelectAll()
      requires Valid()
      modifies this`selected
      ensures Valid()
      ensures selected == old(selected) + Indices(|rows|)
    {
      for i := 0 to |rows|
        invariant selected == old(selected) + Indices(i)
      {
        assert Indices(i + 1) == Indices(i) + {i};
        selected := selected + {i};
      }
    }

    method ClearSelections()
      requires Valid()
      modifies this`selected
      ensures Valid()
      ensures selected == {}
    {
      selected := {};
    }

    method EnableMultiSelect()
      requires Valid()
      modifies this`multiSelectMode, this`help
      ensures Valid()
      ensures multiSelectMode && help == DefaultHelp
    {
      multiSelectMode := true;
      help := DefaultHelp;
    }

    /** One key event. The selection changes only on space and "a", and only in multi-select mode. */
    method Update(key: Key) returns (cmd: Cmd, fired: Callback)
      requires Valid()
      requires key.Navigate? ==> (if rows == [] then key.cursor == 0 else key.cursor < |rows|)
      modifies this`selected, this`cursor
      ensures Valid()
      ensures key.Q? || key.CtrlC? || key.Esc? ==>
                cmd == Quit && fired == NoCallback && selected == old(selected) && cursor == old(cursor)
      ensures key.Space? ==>
                cmd == NoCmd && fired == NoCallback && cursor == old(cursor) &&
                selected == if multiSelectMode then Toggle(old(selected), cursor) else old(selected)
      ensures key.A? ==>
                cmd == NoCmd && fired == NoCallback && cursor == old(cursor) &&
                selected == if multiSelectMode then old(selected) + Indices(|rows|) else old(selected)
      ensures key.Enter? ==>
                cmd == NoCmd && selected == old(selected) && cursor == old(cursor) &&
                fired == Commit(rows, cursor, selected, multiSelectMode, hasOnSelect, hasOnMultiSelect)
      ensures key.Navigate? ==>
                cmd == WidgetCmd && fired == NoCallback && selected == old(selected) && cursor == key.cursor
    {
      fired := NoCallback;
      match key
      case Q => cmd := Quit;
      case CtrlC => cmd := Quit;
      case Esc => cmd := Quit;
      case Space =>
        if multiSelectMode {
          ToggleRow();
        }
        cmd := NoCmd;
      case A =>
        if multiSelectMode {
          SelectAll();
        }
        cmd := NoCmd;
      case Enter =>
        if multiSelectMode && |selected| > 0 && hasOnMultiSelect {
          var rs := GetSelectedRows();
          fired := OnMultiSelect(rs);
        } else if !multiSelectMode && hasOnSelect && |rows| > 0 {
          fired := OnSelect(rows[cursor]);
        }
        cmd := NoCmd;
      case Navigate(c) =>
        cursor := c;
        cmd := WidgetCmd;
    }

    /** The decorated rows of the multi-select rendering, built row by row. */
    method DecoratedRows() returns (grid: seq<Row>)
      ensures grid == Decorate(rows, selected)
    {
      grid := [];
      for i := 0 to |rows|
        invariant |grid| == i
        invariant forall j :: 0 <= j < i ==> grid[j] == [Indicator(j in selected)] + rows[j]
      {
        var indicator := "";
        if i in selected {
          indicator := Checkmark;
        }
        grid := grid + [[indicator] + rows[i]];
      }
    }

    /**
     * View. In multi-select mode with a non-empty selection it shows the
     * selection count and the rows behind the indicator column; otherwise
     * the widget's own rows.
     */
    method View() returns (v: TableView)
      ensures v.title == title && v.help == help && v.cursor == cursor
      ensures v.selectedCount == if multiSelectMode && |selected| > 0 then Some(|selected|) else None
      ensures multiSelectMode && |selected| > 0 ==>
                v.columns == [IndicatorColumn] + columns && v.grid == Decorate(rows, selected)
      ensures !(multiSelectMode && |selected| > 0) ==> v.columns == columns && v.grid == rows
    {
      if multiSelectMode && |selected| > 0 {
        var grid := DecoratedRows();
        v := TableView(title, Some(|selected|), [IndicatorColumn] + columns, grid, cursor, help);
      } else {
        v := TableView(title, None, columns, rows, cursor, help);
      }
    }
  }

  /**
   * On a valid non-empty table, the "N items selected" count is the number of
   * rows the commit key hands to the multi-selection callback.
   */
  lemma SelectedCountMatchesRows(rows: seq<Row>, sel: set<int>)
    requires sel <= Indices(|rows|)
    ensures |SelectedRows(rows, sel)| == |sel|
  {
    SelectedRowsCount(rows, sel);
    assert InRange(sel, |rows|) == sel;
  }

  /**
   * The one valid table where the count and the rows disagree: on an empty
   * table a toggle selects index 0, the view counts one selected item, and
   * Enter hands the multi-selection callback no rows.
   */
  lemma EmptyTableSelection()
    ensures |{0}| == 1 && SelectedRows([], {0}) == []
    ensures Commit([], 0, {0}, true, false, true) == OnMultiSelect([])
  {
    assert SelectedIndices(0, {0}) == [];
  }
}
