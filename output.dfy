/** The adaptive table renderer of internal/output/output.go: `Truncate`, the
    `Table` value with its setters, and `(*Table).String`.

    The rendering is specified by pure functions over a `TableState` value
    (`Render`); the `Table` class holds the same fields, its setters are
    stated as updates of that value, and its `String` method, written with
    the source's loops, is proved to return `Render` of the current state. */
module Output {
  import opened Text

  function Max(a: int, b: int): int
  {
    if a < b then b else a
  }

  /** fmt's `%-Ns`: left-justify `s` in a field of `width` characters,
      right-padding with spaces; a longer string is never shortened. */
  function PadRight(s: string, width: int): (r: string)
    ensures |r| == Max(|s|, width)
    ensures forall k :: 0 <= k < |s| ==> r[k] == s[k]
    ensures forall k :: |s| <= k < |r| ==> r[k] == ' '
  {
    if |s| < width then s + Repeat(' ', width - |s|) else s
  }

  /** `Truncate(s, max)`. Go panics on the slice `s[:max-3]` when the string
      is too long and `max < 3`: that is this function's precondition. */
  function Truncate(s: string, max: int): (r: string)
    requires |s| <= max || max >= 3
    ensures |s| <= max ==> r == s
    ensures |s| > max ==> |r| == max && r[..max - 3] == s[..max - 3] && r[max - 3..] == "..."
  {
    if |s| <= max then s else s[..max - 3] + "..."
  }

  /** The fields of the Go `Table` struct, as a value. */
  datatype TableState = TableState(
    headers: seq<string>,
    rows: seq<seq<string>>,
    minWidth: int,
    maxWidth: int,
    padding: int,
    truncateLong: bool,
    columnWidths: seq<int>,
    columnTruncate: seq<bool>)
  {
    /** The per-column slices have one entry per header. */
    predicate Valid()
    {
      |columnWidths| == |headers| && |columnTruncate| == |headers|
    }
  }

  /** Width of column `i` before the minimum and the caps: the header's
      length, widened by each row's cell in that column, rows in order. */
  function ColumnExtent(header: string, rows: seq<seq<string>>, i: nat): nat
  {
    if rows == [] then |header|
    else
      var w := ColumnExtent(header, rows[..|rows| - 1], i);
      var last := rows[|rows| - 1];
      if i < |last| && |last[i]| > w then |last[i]| else w
  }

  /** The extent is the longest of the header and the column's cells. */
  lemma {:induction false} ColumnExtentIsMax(header: string, rows: seq<seq<string>>, i: nat)
    ensures |header| <= ColumnExtent(header, rows, i)
    ensures forall r :: 0 <= r < |rows| && i < |rows[r]| ==> |rows[r][i]| <= ColumnExtent(header, rows, i)
    ensures ColumnExtent(header, rows, i) == |header|
         || exists r :: 0 <= r < |rows| && i < |rows[r]| && ColumnExtent(header, rows, i) == |rows[r][i]|
    decreases |rows|
  {
    if rows != [] {
      var init := rows[..|rows| - 1];
      ColumnExtentIsMax(header, init, i);
      assert forall r :: 0 <= r < |init| ==> init[r] == rows[r];
    }
  }

  /** The minimum, then the per-column cap, otherwise the global cap. */
  function FinalWidth(extent: nat, minWidth: int, maxWidth: int, cap: int): (w: nat)
    ensures w <= Max(extent, minWidth)
    ensures cap > 0 ==> w <= cap
    ensures maxWidth > 0 && w > maxWidth ==> cap > 0 && w == cap
    ensures w == Max(extent, minWidth) || (cap > 0 && w == cap) || (maxWidth > 0 && w == maxWidth)
    ensures (cap <= 0 || Max(extent, minWidth) <= cap) && (maxWidth <= 0 || Max(extent, minWidth) <= maxWidth)
            ==> w == Max(extent, minWidth)
    // Precedence: an exceeded column cap wins and the global cap is not consulted.
    ensures cap > 0 && Max(extent, minWidth) > cap ==> w == cap
    // A column cap that is unset or not exceeded leaves the global cap in force.
    ensures !(cap > 0 && Max(extent, minWidth) > cap) && maxWidth > 0 && Max(extent, minWidth) > maxWidth
            ==> w == maxWidth
  {
    var raised := if extent < minWidth then minWidth else extent;
    if cap > 0 && raised > cap then cap
    else if maxWidth > 0 && raised > maxWidth then maxWidth
    else raised
  }

  /** The final width of every column. */
  function Widths(st: TableState): (ws: seq<nat>)
    requires st.Valid()
    ensures |ws| == |st.headers|
  {
    seq(|st.headers|, i requires 0 <= i < |st.headers| =>
      FinalWidth(ColumnExtent(st.headers[i], st.rows, i), st.minWidth, st.maxWidth, st.columnWidths[i]))
  }

  /** What a rendering pass needs per column: final widths, the gap between
      columns and whether the column's data cells may be truncated. */
  datatype Layout = Layout(widths: seq<nat>, gap: nat, truncate: seq<bool>)
  {
    predicate Valid()
    {
      |truncate| == |widths|
    }
  }

  /** The layout of a table. A negative padding is only ever used when there
      are at least two columns, and then Go panics before using it, so the
      gap of a table with a negative padding is never observed. */
  function LayoutOf(st: TableState): (lay: Layout)
    requires st.Valid()
    ensures lay.Valid() && |lay.widths| == |st.headers|
  {
    Layout(Widths(st), if st.padding < 0 then 0 else st.padding,
           seq(|st.headers|, i requires 0 <= i < |st.headers| => st.truncateLong || st.columnTruncate[i]))
  }

  /** The padding written before field `i`. */
  function Gap(lay: Layout, i: nat): string
  {
    if i > 0 then Repeat(' ', lay.gap) else ""
  }

  /** The first `k` fields of the header line. */
  function HeaderFields(headers: seq<string>, lay: Layout, k: nat): string
    requires |headers| == |lay.widths| && k <= |headers|
  {
    if k == 0 then ""
    else HeaderFields(headers, lay, k - 1) + Gap(lay, k - 1) + PadRight(headers[k - 1], lay.widths[k - 1])
  }

  /** The first `k` fields of the dash separator line. */
  function SeparatorFields(lay: Layout, k: nat): string
    requires k <= |lay.widths|
  {
    if k == 0 then ""
    else SeparatorFields(lay, k - 1) + Gap(lay, k - 1) + Repeat('-', lay.widths[k - 1])
  }

  /** Rendering this data cell would hit Go's slice panic inside Truncate. */
  predicate CellPanics(cell: string, w: nat, truncate: bool)
  {
    truncate && |cell| > w && w < 3
  }

  /** A data cell: truncated with an ellipsis when it is too long and its
      column may be truncated, otherwise only right-padded. */
  function RenderCell(cell: string, w: nat, truncate: bool): (r: string)
    requires !CellPanics(cell, w, truncate)
    ensures |r| < |cell| <==> truncate && |cell| > w
    ensures truncate && |cell| > w ==> |r| == w && r[..w - 3] == cell[..w - 3] && r[w - 3..] == "..."
    ensures !(truncate && |cell| > w) ==>
              |r| == Max(|cell|, w) && r[..|cell|] == cell && forall k :: |cell| <= k < |r| ==> r[k] == ' '
  {
    if truncate && |cell| > w then PadRight(Truncate(cell, w), w) else PadRight(cell, w)
  }

  /** No cell among the first `k` of `row` that is rendered hits the slice panic. */
  predicate SafeUpTo(row: seq<string>, lay: Layout, k: nat)
    requires lay.Valid() && k <= |row|
  {
    forall i :: 0 <= i < k && i < |lay.widths| ==> !CellPanics(row[i], lay.widths[i], lay.truncate[i])
  }

  predicate RowSafe(row: seq<string>, lay: Layout)
    requires lay.Valid()
  {
    SafeUpTo(row, lay, |row|)
  }

  /** The fields written for the first `k` cells of a row; cells at an index
      beyond the header count are skipped. */
  function RowFields(row: seq<string>, lay: Layout, k: nat): string
    requires lay.Valid() && k <= |row| && SafeUpTo(row, lay, k)
  {
    if k == 0 then ""
    else if k - 1 >= |lay.widths| then RowFields(row, lay, k - 1)
    else RowFields(row, lay, k - 1) + Gap(lay, k - 1) + RenderCell(row[k - 1], lay.widths[k - 1], lay.truncate[k - 1])
  }

  /** One more cell of a row: a skipped one past the header count, or a
      gap and the rendered cell. */
  lemma RowFieldsStep(row: seq<string>, lay: Layout, c: nat)
    requires lay.Valid() && c < |row| && SafeUpTo(row, lay, c)
    requires c < |lay.widths| ==> !CellPanics(row[c], lay.widths[c], lay.truncate[c])
    ensures SafeUpTo(row, lay, c + 1)
    ensures c >= |lay.widths| ==> RowFields(row, lay, c + 1) == RowFields(row, lay, c)
    ensures c < |lay.widths| ==>
              RowFields(row, lay, c + 1)
              == RowFields(row, lay, c) + Gap(lay, c) + RenderCell(row[c], lay.widths[c], lay.truncate[c])
  {
  }

  predicate RowsSafe(rows: seq<seq<string>>, lay: Layout)
    requires lay.Valid()
  {
    forall r :: 0 <= r < |rows| ==> RowSafe(rows[r], lay)
  }

  /** One line per row, each ended by a newline. */
  function RowsText(rows: seq<seq<string>>, lay: Layout): string
    requires lay.Valid() && RowsSafe(rows, lay)
  {
    if rows == [] then ""
    else
      var last := rows[|rows| - 1];
      RowsText(rows[..|rows| - 1], lay) + RowFields(last, lay, |last|) + "\n"
  }

  /** Appending a row appends its line. */
  lemma RowsTextSnoc(rows: seq<seq<string>>, row: seq<string>, lay: Layout)
    requires lay.Valid()
    ensures RowsSafe(rows + [row], lay) <==> RowsSafe(rows, lay) && RowSafe(row, lay)
    ensures RowsSafe(rows + [row], lay) ==>
              RowsText(rows + [row], lay) == RowsText(rows, lay) + RowFields(row, lay, |row|) + "\n"
  {
    var all := rows + [row];
    assert all[..|all| - 1] == rows && all[|all| - 1] == row;
    assert forall r :: 0 <= r < |rows| ==> all[r] == rows[r];
  }

  /** The two ways `String()` can panic: strings.Repeat with a negative
      count, and the slice in Truncate. */
  datatype PanicCause = NegativeRepeatCount | SliceOutOfRange

  datatype Rendering = Rendered(text: string) | Panicked(cause: PanicCause)

  /** What `(*Table).String` produces for a table. */
  function Render(st: TableState): Rendering
    requires st.Valid()
  {
    var n := |st.headers|;
    if n == 0 then Rendered("")
    else if n >= 2 && st.padding < 0 then Panicked(NegativeRepeatCount)
    else
      var lay := LayoutOf(st);
      if !RowsSafe(st.rows, lay) then Panicked(SliceOutOfRange)
      else Rendered(HeaderFields(st.headers, lay, n) + "\n" + SeparatorFields(lay, n) + "\n" + RowsText(st.rows, lay))
  }

  // ---------------------------------------------------------------------
  // Properties of the rendering
  // ---------------------------------------------------------------------

  /** Sum of the column widths. */
  function Sum(xs: seq<nat>): nat
  {
    if xs == [] then 0 else Sum(xs[..|xs| - 1]) + xs[|xs| - 1]
  }

  /** The separator line has `widths[i]` dashes per column, joined by the
      gap: its length is the sum of the widths plus `gap * (N - 1)`. */
  lemma {:induction false} SeparatorLength(lay: Layout, k: nat)
    requires 1 <= k <= |lay.widths|
    ensures |SeparatorFields(lay, k)| == Sum(lay.widths[..k]) + lay.gap * (k - 1)
  {
    assert lay.widths[..k][..k - 1] == lay.widths[..k - 1];
    if k > 1 {
      SeparatorLength(lay, k - 1);
    } else {
      assert lay.widths[..0] == [];
    }
  }

  /** The separator line is made of dashes and spaces only. */
  lemma {:induction false} SeparatorChars(lay: Layout, k: nat)
    requires k <= |lay.widths|
    ensures forall j :: 0 <= j < |SeparatorFields(lay, k)| ==>
              SeparatorFields(lay, k)[j] == '-' || SeparatorFields(lay, k)[j] == ' '
  {
    if k > 0 {
      SeparatorChars(lay, k - 1);
    }
  }

  /** Every data cell whose column may truncate it, or that fits, occupies
      exactly its column's width; then a row with a cell for every column
      is exactly as long as the separator line. */
  lemma {:induction false} RowFieldsWidth(row: seq<string>, lay: Layout, k: nat)
    requires lay.Valid() && k <= |row| && k <= |lay.widths| && SafeUpTo(row, lay, k)
    requires forall i :: 0 <= i < k ==> |row[i]| <= lay.widths[i] || lay.truncate[i]
    ensures |RowFields(row, lay, k)| == |SeparatorFields(lay, k)|
  {
    if k > 0 {
      RowFieldsWidth(row, lay, k - 1);
    }
  }

  /** Cells at an index at or beyond the header count add nothing to a line. */
  lemma {:induction false} RowFieldsIgnoreExtra(row: seq<string>, lay: Layout, k: nat)
    requires lay.Valid() && |lay.widths| <= k <= |row| && SafeUpTo(row, lay, k)
    ensures SafeUpTo(row, lay, |lay.widths|)
    ensures RowFields(row, lay, k) == RowFields(row, lay, |lay.widths|)
  {
    if k > |lay.widths| {
      RowFieldsIgnoreExtra(row, lay, k - 1);
    }
  }

  /** Header cells are only padded, never truncated: when each header fits
      its column, the header line is as long as the separator line. */
  lemma {:induction false} HeaderFieldsWidth(headers: seq<string>, lay: Layout, k: nat)
    requires |headers| == |lay.widths| && k <= |headers|
    requires forall i :: 0 <= i < k ==> |headers[i]| <= lay.widths[i]
    ensures |HeaderFields(headers, lay, k)| == |SeparatorFields(lay, k)|
  {
    if k > 0 {
      HeaderFieldsWidth(headers, lay, k - 1);
    }
  }

  /** A length at or under both caps that apply to column `i`. */
  predicate UnderCaps(st: TableState, i: nat, len: int)
    requires st.Valid() && i < |st.headers|
  {
    (st.columnWidths[i] <= 0 || len <= st.columnWidths[i]) && (st.maxWidth <= 0 || len <= st.maxWidth)
  }

  /** The width rules of `String()` for column `i`: a positive column cap is
      never exceeded; the global cap is exceeded only through a column cap;
      the width covers the header, every cell and the minimum unless a cap
      cuts it; it is never wider than the minimum or the widest entry; and an
      exceeded column cap takes precedence over the global cap. */
  lemma ColumnWidthRules(st: TableState, i: nat)
    requires st.Valid() && i < |st.headers|
    ensures st.columnWidths[i] > 0 ==> Widths(st)[i] <= st.columnWidths[i]
    ensures st.maxWidth > 0 && Widths(st)[i] > st.maxWidth ==> Widths(st)[i] == st.columnWidths[i]
    ensures UnderCaps(st, i, |st.headers[i]|) ==> |st.headers[i]| <= Widths(st)[i]
    ensures forall r :: 0 <= r < |st.rows| && i < |st.rows[r]| && UnderCaps(st, i, |st.rows[r][i]|) ==>
              |st.rows[r][i]| <= Widths(st)[i]
    ensures UnderCaps(st, i, st.minWidth) ==> st.minWidth <= Widths(st)[i]
    ensures Widths(st)[i] <= Max(ColumnExtent(st.headers[i], st.rows, i), st.minWidth)
    ensures var raised := Max(ColumnExtent(st.headers[i], st.rows, i), st.minWidth);
            st.columnWidths[i] > 0 && raised > st.columnWidths[i] ==> Widths(st)[i] == st.columnWidths[i]
    ensures var raised := Max(ColumnExtent(st.headers[i], st.rows, i), st.minWidth);
            !(st.columnWidths[i] > 0 && raised > st.columnWidths[i]) && st.maxWidth > 0 && raised > st.maxWidth
            ==> Widths(st)[i] == st.maxWidth
  {
    ColumnExtentIsMax(st.headers[i], st.rows, i);
  }

  /** Data lines line up with the separator: a row with a cell for every
      column, each of which fits or may be truncated, renders to a line as
      long as the separator line. */
  lemma RowAligned(st: TableState, r: nat)
    requires st.Valid() && |st.headers| > 0 && Render(st).Rendered? && r < |st.rows|
    requires |st.rows[r]| >= |st.headers|
    requires forall i :: 0 <= i < |st.headers| ==>
               |st.rows[r][i]| <= Widths(st)[i] || st.truncateLong || st.columnTruncate[i]
    ensures RowSafe(st.rows[r], LayoutOf(st))
    ensures |RowFields(st.rows[r], LayoutOf(st), |st.rows[r]|)| == |SeparatorFields(LayoutOf(st), |st.headers|)|
  {
    var lay := LayoutOf(st);
    var row := st.rows[r];
    assert RowSafe(row, lay);
    RowFieldsIgnoreExtra(row, lay, |row|);
    RowFieldsWidth(row, lay, |st.headers|);
  }

  /** The header line lines up with the separator whenever no cap is below a
      header's length. */
  lemma HeaderAligned(st: TableState)
    requires st.Valid()
    requires forall i :: 0 <= i < |st.headers| ==> UnderCaps(st, i, |st.headers[i]|)
    ensures |HeaderFields(st.headers, LayoutOf(st), |st.headers|)| == |SeparatorFields(LayoutOf(st), |st.headers|)|
  {
    forall i | 0 <= i < |st.headers|
      ensures |st.headers[i]| <= LayoutOf(st).widths[i]
    {
      ColumnWidthRules(st, i);
    }
    HeaderFieldsWidth(st.headers, LayoutOf(st), |st.headers|);
  }

  predicate NoNewline(s: string)
  {
    forall k :: 0 <= k < |s| ==> s[k] != '\n'
  }

  /** No header and no cell contains a line break. */
  predicate NoNewlineInCells(st: TableState)
  {
    (forall i :: 0 <= i < |st.headers| ==> NoNewline(st.headers[i]))
    && (forall r, c :: 0 <= r < |st.rows| && 0 <= c < |st.rows[r]| ==> NoNewline(st.rows[r][c]))
  }

  lemma NoNewlineConcat(a: string, b: string)
    requires NoNewline(a) && NoNewline(b)
    ensures NoNewline(a + b)
  {
    forall k | 0 <= k < |a + b| ensures (a + b)[k] != '\n' {
      if k >= |a| {
        assert (a + b)[k] == b[k - |a|];
      }
    }
  }

  lemma RenderCellNoNewline(cell: string, w: nat, truncate: bool)
    requires !CellPanics(cell, w, truncate) && NoNewline(cell)
    ensures NoNewline(RenderCell(cell, w, truncate))
  {
    var r := RenderCell(cell, w, truncate);
    if truncate && |cell| > w {
      forall k | 0 <= k < |r| ensures r[k] != '\n' {
        if k < w - 3 {
          assert r[k] == r[..w - 3][k] == cell[..w - 3][k];
        } else {
          assert r[k] == r[w - 3..][k - (w - 3)];
        }
      }
    } else {
      forall k | 0 <= k < |cell| ensures r[k] != '\n' {
        assert r[k] == r[..|cell|][k];
      }
    }
  }

  lemma {:induction false} HeaderFieldsNoNewline(headers: seq<string>, lay: Layout, k: nat)
    requires |headers| == |lay.widths| && k <= |headers|
    requires forall i :: 0 <= i < |headers| ==> NoNewline(headers[i])
    ensures NoNewline(HeaderFields(headers, lay, k))
  {
    if k > 0 {
      HeaderFieldsNoNewline(headers, lay, k - 1);
      NoNewlineConcat(HeaderFields(headers, lay, k - 1), Gap(lay, k - 1));
      NoNewlineConcat(HeaderFields(headers, lay, k - 1) + Gap(lay, k - 1), PadRight(headers[k - 1], lay.widths[k - 1]));
    }
  }

  lemma {:induction false} RowFieldsNoNewline(row: seq<string>, lay: Layout, k: nat)
    requires lay.Valid() && k <= |row| && SafeUpTo(row, lay, k)
    requires forall c :: 0 <= c < |row| ==> NoNewline(row[c])
    ensures NoNewline(RowFields(row, lay, k))
  {
    if k > 0 {
      RowFieldsNoNewline(row, lay, k - 1);
      if k - 1 < |lay.widths| {
        var cell := RenderCell(row[k - 1], lay.widths[k - 1], lay.truncate[k - 1]);
        RenderCellNoNewline(row[k - 1], lay.widths[k - 1], lay.truncate[k - 1]);
        NoNewlineConcat(RowFields(row, lay, k - 1), Gap(lay, k - 1));
        NoNewlineConcat(RowFields(row, lay, k - 1) + Gap(lay, k - 1), cell);
      }
    }
  }

  /** Each row contributes exactly one line break, at its end. */
  lemma {:induction false} RowsTextLines(rows: seq<seq<string>>, lay: Layout)
    requires lay.Valid() && RowsSafe(rows, lay)
    requires forall r, c :: 0 <= r < |rows| && 0 <= c < |rows[r]| ==> NoNewline(rows[r][c])
    ensures Occurrences('\n', RowsText(rows, lay)) == |rows|
    ensures rows != [] ==> RowsText(rows, lay)[|RowsText(rows, lay)| - 1] == '\n'
    decreases |rows|
  {
    if rows != [] {
      var init := rows[..|rows| - 1];
      var last := rows[|rows| - 1];
      assert forall r :: 0 <= r < |init| ==> init[r] == rows[r];
      RowsTextLines(init, lay);
      RowFieldsNoNewline(last, lay, |last|);
      var line := RowFields(last, lay, |last|);
      OccurrencesAbsent('\n', line);
      OccurrencesAppend('\n', RowsText(init, lay), line);
      OccurrencesAppend('\n', RowsText(init, lay) + line, "\n");
    }
  }

  /** Without line breaks inside cells, the rendering has exactly
      `2 + |rows|` lines: header, separator and one per row, each ended by
      a newline. */
  lemma RenderLineCount(st: TableState)
    requires st.Valid() && |st.headers| > 0 && Render(st).Rendered? && NoNewlineInCells(st)
    ensures Occurrences('\n', Render(st).text) == 2 + |st.rows|
    ensures Render(st).text[|Render(st).text| - 1] == '\n'
  {
    var n := |st.headers|;
    var lay := LayoutOf(st);
    var header := HeaderFields(st.headers, lay, n);
    var separator := SeparatorFields(lay, n);
    var body := RowsText(st.rows, lay);
    HeaderFieldsNoNewline(st.headers, lay, n);
    SeparatorChars(lay, n);
    OccurrencesAbsent('\n', header);
    OccurrencesAbsent('\n', separator);
    RowsTextLines(st.rows, lay);
    OccurrencesAppend('\n', header, "\n");
    OccurrencesAppend('\n', header + "\n", separator);
    OccurrencesAppend('\n', header + "\n" + separator, "\n");
    OccurrencesAppend('\n', header + "\n" + separator + "\n", body);
    assert Render(st).text == header + "\n" + separator + "\n" + body;
  }

  /** `String()` cannot panic when the padding is not negative and neither
      cap is 1 or 2. A width below 3 that is not a cap is the raised width,
      which no cell of the column exceeds, so Truncate is never reached. */
  lemma RenderDoesNotPanic(st: TableState)
    requires st.Valid() && st.padding >= 0
    requires st.maxWidth <= 0 || st.maxWidth >= 3
    requires forall i :: 0 <= i < |st.columnWidths| ==> st.columnWidths[i] <= 0 || st.columnWidths[i] >= 3
    ensures Render(st).Rendered?
  {
    if |st.headers| > 0 {
      var lay := LayoutOf(st);
      forall r, c | 0 <= r < |st.rows| && 0 <= c < |st.rows[r]| && c < |lay.widths|
        ensures !CellPanics(st.rows[r][c], lay.widths[c], lay.truncate[c])
      {
        ColumnWidthRules(st, c);
        ColumnExtentIsMax(st.headers[c], st.rows, c);
      }
      assert RowsSafe(st.rows, lay);
    }
  }

  /** A table as NewTable leaves it: every column is between 5 and 80 wide,
      and rendering never panics. */
  lemma DefaultTableWidths(headers: seq<string>, rows: seq<seq<string>>)
    ensures var st := TableState(headers, rows, 5, 80, 2, false,
                                 seq(|headers|, _ => 0), seq(|headers|, _ => false));
            && (forall i :: 0 <= i < |headers| ==> 5 <= Widths(st)[i] <= 80)
            && Render(st).Rendered?
  {
    var st := TableState(headers, rows, 5, 80, 2, false, seq(|headers|, _ => 0), seq(|headers|, _ => false));
    forall i | 0 <= i < |headers| ensures 5 <= Widths(st)[i] <= 80 {
      ColumnWidthRules(st, i);
    }
    RenderDoesNotPanic(st);
  }

  /** The table of the truncation example below. */
  function NameExampleTable(): TableState
  {
    TableState(["ID", "NAME"], [["123", "A very long name exceeding width"]], 5, 80, 2, false, [0, 10], [false, true])
  }

  lemma NameExampleLayout()
    ensures LayoutOf(NameExampleTable()) == Layout([5, 10], 2, [false, true])
  {
    var st := NameExampleTable();
    assert st.rows[..0] == [];
    assert ColumnExtent("ID", st.rows, 0) == 3;
    assert ColumnExtent("NAME", st.rows, 1) == 32;
    assert Widths(st) == [5, 10];
  }

  lemma NameExampleCells()
    ensures !CellPanics("A very long name exceeding width", 10, true)
    ensures RenderCell("A very long name exceeding width", 10, true) == "A very ..."
    ensures RenderCell("123", 5, false) == "123  "
  {
    var name := "A very long name exceeding width";
    assert name[..7] == "A very ";
    assert Truncate(name, 10) == "A very ...";
  }

  lemma NameExampleRow()
    ensures RowSafe(NameExampleTable().rows[0], Layout([5, 10], 2, [false, true]))
    ensures RowFields(NameExampleTable().rows[0], Layout([5, 10], 2, [false, true]), 2) == "123    A very ..."
  {
    var lay := Layout([5, 10], 2, [false, true]);
    var row := NameExampleTable().rows[0];
    NameExampleCells();
    assert Gap(lay, 1) == "  ";
    assert RowFields(row, lay, 1) == "123  ";
    assert RowFields(row, lay, 2) == "123  " + "  " + "A very ...";
  }

  lemma NameExampleHeader()
    ensures HeaderFields(["ID", "NAME"], Layout([5, 10], 2, [false, true]), 2) == "ID     NAME      "
  {
    var lay := Layout([5, 10], 2, [false, true]);
    assert PadRight("ID", 5) == "ID   ";
    assert PadRight("NAME", 10) == "NAME      ";
    assert Gap(lay, 1) == "  ";
    assert HeaderFields(["ID", "NAME"], lay, 1) == "ID   ";
    assert HeaderFields(["ID", "NAME"], lay, 2) == "ID   " + "  " + "NAME      ";
  }

  lemma NameExampleSeparator()
    ensures SeparatorFields(Layout([5, 10], 2, [false, true]), 2) == "-----  ----------"
  {
    var lay := Layout([5, 10], 2, [false, true]);
    assert Repeat('-', 5) == "-----";
    assert Repeat('-', 10) == "----------";
    assert Gap(lay, 1) == "  ";
    assert SeparatorFields(lay, 1) == "-----";
    assert SeparatorFields(lay, 2) == "-----" + "  " + "----------";
  }

  /** A two-column table whose NAME column is capped at 10 and truncatable:
      the long name is cut to exactly 10 characters ending in "...", while
      the ID column, raised to the minimum of 5, is only padded. */
  /** A table with one row renders that row's line and a newline. */
  lemma SingleRowText(row: seq<string>, lay: Layout)
    requires lay.Valid() && RowSafe(row, lay)
    ensures RowsSafe([row], lay)
    ensures RowsText([row], lay) == RowFields(row, lay, |row|) + "\n"
  {
    assert [row][..0] == [];
  }

  lemma NameExampleRows()
    ensures RowsSafe(NameExampleTable().rows, Layout([5, 10], 2, [false, true]))
    ensures RowsText(NameExampleTable().rows, Layout([5, 10], 2, [false, true])) == "123    A very ...\n"
  {
    var lay := Layout([5, 10], 2, [false, true]);
    var row := NameExampleTable().rows[0];
    NameExampleRow();
    SingleRowText(row, lay);
    assert NameExampleTable().rows == [row];
  }

  lemma TruncatedNameColumnExample()
    ensures Render(NameExampleTable())
         == Rendered("ID     NAME      " + "\n" + "-----  ----------" + "\n" + "123    A very ..." + "\n")
  {
    var st := NameExampleTable();
    NameExampleLayout();
    NameExampleRows();
    NameExampleHeader();
    NameExampleSeparator();
  }

  /** The `Table` struct: a header row fixed at construction, rows appended in
      place, and configuration changed by the setters. */
  class Table {
    var headers: seq<string>
    var rows: seq<seq<string>>
    var minWidth: int
    var maxWidth: int
    var padding: int
    var truncateLong: bool
    var columnWidths: seq<int>
    var columnTruncate: seq<bool>

    function State(): TableState
      reads this
    {
      TableState(headers, rows, minWidth, maxWidth, padding, truncateLong, columnWidths, columnTruncate)
    }

    ghost predicate Valid()
      reads this
    {
      State().Valid()
    }

    /** NewTable: no rows, minimum 5, maximum 80, padding 2, no truncation,
        and every per-column cap 0 and per-column flag false. */
    constructor NewTable(headers: seq<string>)
      ensures Valid()
      ensures State() == TableState(headers, [], 5, 80, 2, false,
                                    seq(|headers|, _ => 0), seq(|headers|, _ => false))
    {
      this.headers := headers;
      rows := [];
      minWidth := 5;
      maxWidth := 80;
      padding := 2;
      truncateLong := false;
      columnWidths := seq(|headers|, _ => 0);
      columnTruncate := seq(|headers|, _ => false);
    }

    method AddRow(row: seq<string>)
      requires Valid()
      modifies this
      ensures Valid()
      ensures State() == old(State()).(rows := old(rows) + [row])
    {
      rows := rows + [row];
    }

    method SetMinWidth(width: int) returns (t: Table)
      requires Valid()
      modifies this
      ensures Valid() && t == this
      ensures State() == old(State()).(minWidth := width)
    {
      minWidth := width;
      t := this;
    }

    method SetMaxWidth(width: int) returns (t: Table)
      requires Valid()
      modifies this
      ensures Valid() && t == this
      ensures State() == old(State()).(maxWidth := width)
    {
      maxWidth := width;
      t := this;
    }

    method SetPadding(padding: int) returns (t: Table)
      requires Valid()
      modifies this
      ensures Valid() && t == this
      ensures State() == old(State()).(padding := padding)
    {
      this.padding := padding;
      t := this;
    }

    method SetTruncate(truncate: bool) returns (t: Table)
      requires Valid()
      modifies this
      ensures Valid() && t == this
      ensures State() == old(State()).(truncateLong := truncate)
    {
      truncateLong := truncate;
      t := this;
    }

    /** Sets one column's cap; an index out of range changes nothing. */
    method SetColumnWidth(columnIndex: int, width: int) returns (t: Table)
      requires Valid()
      modifies this
      ensures Valid() && t == this
      ensures State() == if 0 <= columnIndex < |old(columnWidths)|
                         then old(State()).(columnWidths := old(columnWidths)[columnIndex := width])
                         else old(State())
    {
      if 0 <= columnIndex < |columnWidths| {
        columnWidths := columnWidths[columnIndex := width];
      }
      t := this;
    }

    /** Sets one column's truncation flag; an index out of range changes nothing. */
    method SetColumnTruncate(columnIndex: int, truncate: bool) returns (t: Table)
      requires Valid()
      modifies this
      ensures Valid() && t == this
      ensures State() == if 0 <= columnIndex < |old(columnTruncate)|
                         then old(State()).(columnTruncate := old(columnTruncate)[columnIndex := truncate])
                         else old(State())
    {
      if 0 <= columnIndex < |columnTruncate| {
        columnTruncate := columnTruncate[columnIndex := truncate];
      }
      t := this;
    }

    /** The first two loops of `String()`: every column's width starts at its
        header's length and is widened to the longest cell in that column. */
    method MeasureColumns() returns (widths: array<int>)
      requires Valid()
      ensures fresh(widths) && widths.Length == |headers|
      ensures forall j :: 0 <= j < widths.Length ==> widths[j] == ColumnExtent(headers[j], rows, j)
    {
      var n := |headers|;
      widths := new int[n];
      for i := 0 to n
        invariant forall j :: 0 <= j < i ==> widths[j] == ColumnExtent(headers[j], rows[..0], j)
      {
        widths[i] := |headers[i]|;
      }
      for r := 0 to |rows|
        invariant forall j :: 0 <= j < n ==> widths[j] == ColumnExtent(headers[j], rows[..r], j)
      {
        var row := rows[r];
        assert rows[..r + 1][..r] == rows[..r] && rows[..r + 1][r] == row;
        for c := 0 to |row|
          invariant forall j :: 0 <= j < n ==>
            widths[j] == ColumnExtent(headers[j], if j < c then rows[..r + 1] else rows[..r], j)
        {
          if c < n && |row[c]| > widths[c] {
            widths[c] := |row[c]|;
          }
        }
      }
      assert rows[..|rows|] == rows;
    }

    /** The third loop of `String()`: raise to the minimum, then apply the
        column's own cap or else the global one. */
    method LimitColumns(widths: array<int>)
      requires Valid() && widths.Length == |headers|
      requires forall j :: 0 <= j < widths.Length ==> widths[j] == ColumnExtent(headers[j], rows, j)
      modifies widths
      ensures widths[..] == Widths(State())
    {
      ghost var ws := Widths(State());
      for i := 0 to widths.Length
        invariant forall j :: 0 <= j < i ==> widths[j] == ws[j]
        invariant forall j :: i <= j < widths.Length ==> widths[j] == ColumnExtent(headers[j], rows, j)
      {
        if widths[i] < minWidth {
          widths[i] := minWidth;
        }
        if columnWidths[i] > 0 && widths[i] > columnWidths[i] {
          widths[i] := columnWidths[i];
        } else if maxWidth > 0 && widths[i] > maxWidth {
          widths[i] := maxWidth;
        }
      }
    }

    /** The header line (without its newline), or the Repeat panic. */
    method WriteHeader(widths: seq<nat>) returns (b: string, panicked: bool)
      requires Valid() && widths == Widths(State())
      ensures panicked <==> |headers| >= 2 && padding < 0
      ensures !panicked ==> b == HeaderFields(headers, LayoutOf(State()), |headers|)
    {
      ghost var lay := LayoutOf(State());
      b := "";
      for i := 0 to |headers|
        invariant b == HeaderFields(headers, lay, i)
        invariant i >= 2 ==> padding >= 0
      {
        if i > 0 {
          if padding < 0 {
            return b, true;
          }
          b := b + Repeat(' ', padding);
        }
        b := b + PadRight(headers[i], widths[i]);
      }
      panicked := false;
    }

    /** The dash separator line (without its newline). */
    method WriteSeparator(widths: seq<nat>) returns (b: string)
      requires Valid() && widths == Widths(State())
      requires |headers| >= 2 ==> padding >= 0
      ensures b == SeparatorFields(LayoutOf(State()), |headers|)
    {
      ghost var lay := LayoutOf(State());
      b := "";
      for i := 0 to |widths|
        invariant b == SeparatorFields(lay, i)
      {
        if i > 0 {
          b := b + Repeat(' ', padding);
        }
        b := b + Repeat('-', widths[i]);
      }
    }

    /** One data row (without its newline), or the slice panic of Truncate. */
    method WriteRow(row: seq<string>, widths: seq<nat>) returns (b: string, panicked: bool)
      requires Valid() && widths == Widths(State())
      requires |headers| >= 2 ==> padding >= 0
      ensures panicked <==> !RowSafe(row, LayoutOf(State()))
      ensures !panicked ==> b == RowFields(row, LayoutOf(State()), |row|)
    {
      ghost var lay := LayoutOf(State());
      var n := |widths|;
      assert lay.widths == widths;
      assert n >= 2 ==> lay.gap == padding;
      b := "";
      for c := 0 to |row|
        invariant SafeUpTo(row, lay, c)
        invariant b == RowFields(row, lay, c)
      {
        if c >= n {
          RowFieldsStep(row, lay, c);
          continue;
        }
        var gap := "";
        if c > 0 {
          gap := Repeat(' ', padding);
        }
        var cell := row[c];
        assert lay.truncate[c] == (truncateLong || columnTruncate[c]);
        var shouldTruncate := (truncateLong || (c < |columnTruncate| && columnTruncate[c])) && |cell| > widths[c];
        var text: string;
        if shouldTruncate {
          if widths[c] < 3 {
            assert CellPanics(row[c], lay.widths[c], lay.truncate[c]);
            return b, true;
          }
          text := PadRight(Truncate(cell, widths[c]), widths[c]);
        } else {
          text := PadRight(cell, widths[c]);
        }
        RowFieldsStep(row, lay, c);
        b := b + gap + text;
      }
      panicked := false;
    }

    /** The row loop of `String()`: one line per row, or the slice panic. */
    method WriteRows(widths: seq<nat>) returns (b: string, panicked: bool)
      requires Valid() && widths == Widths(State())
      requires |headers| >= 2 ==> padding >= 0
      ensures panicked <==> !RowsSafe(rows, LayoutOf(State()))
      ensures !panicked ==> b == RowsText(rows, LayoutOf(State()))
    {
      ghost var lay := LayoutOf(State());
      b := "";
      for r := 0 to |rows|
        invariant RowsSafe(rows[..r], lay)
        invariant b == RowsText(rows[..r], lay)
      {
        assert rows[..r + 1] == rows[..r] + [rows[r]];
        RowsTextSnoc(rows[..r], rows[r], lay);
        var line, rowPanicked := WriteRow(rows[r], widths);
        if rowPanicked {
          assert !RowsSafe(rows[..r + 1], lay);
          assert !RowsSafe(rows, lay) by {
            assert !RowSafe(rows[r], lay);
          }
          return b, true;
        }
        b := b + line + "\n";
      }
      assert rows[..|rows|] == rows;
      panicked := false;
    }

    /** `(*Table).String`: computes the widths into a buffer, then writes the
        header line, the separator line and one line per row. It only reads
        the table. */
    method String() returns (out: Rendering)
      requires Valid()
      ensures out == Render(State())
    {
      if |headers| == 0 {
        return Rendered("");
      }
      var buffer := MeasureColumns();
      LimitColumns(buffer);
      var widths: seq<nat> := buffer[..];

      var header, panicked := WriteHeader(widths);
      if panicked {
        return Panicked(NegativeRepeatCount);
      }
      var separator := WriteSeparator(widths);
      var body, rowPanicked := WriteRows(widths);
      if rowPanicked {
        return Panicked(SliceOutOfRange);
      }
      return Rendered(header + "\n" + separator + "\n" + body);
    }
  }
}
