/**
 * The spreadsheet of finished records, as rows of text cells, and what
 * `_get_excel_sheet` makes of the file it finds: create it when missing,
 * keep it when row 1 is exactly the header, and otherwise replace it by a
 * sheet holding only the header (earlier rows are lost).
 */
module RecordStore {
  import opened Wrappers

  type Row = seq<string>

  /** `PLANILHA_HEADERS`: the column names, in the order rows are written. */
  const HEADERS: Row := [
    "NOME_USUARIO",
    "DATA_REGISTRO",
    "HORARIO_INICIO_EXPEDIENTE",
    "HORARIO_FIM_EXPEDIENTE",
    "TEMPO_TOTAL_TRABALHADO_DIA"
  ]

  /** The workbook file: absent, present but not loadable, or a sheet of rows. */
  datatype StoredFile = Missing | Unreadable | Stored(rows: seq<Row>)

  /** The sheet's `max_column`: the widest row, and 1 for a sheet with no cells. */
  function MaxColumn(rows: seq<Row>): nat {
    if rows == [] then 1
    else
      var rest := MaxColumn(rows[1..]);
      if |rows[0]| > rest then |rows[0]| else rest
  }

  /** `max_column` is at least 1, no row is wider, and it is the width of some row unless it is 1. */
  lemma {:induction false} MaxColumnBounds(rows: seq<Row>)
    ensures MaxColumn(rows) >= 1
    ensures forall i :: 0 <= i < |rows| ==> |rows[i]| <= MaxColumn(rows)
    ensures MaxColumn(rows) == 1 || exists i :: 0 <= i < |rows| && |rows[i]| == MaxColumn(rows)
  {
    if rows != [] {
      MaxColumnBounds(rows[1..]);
      assert forall i :: 1 <= i < |rows| ==> rows[i] == rows[1..][i - 1];
      if MaxColumn(rows) != 1 && MaxColumn(rows) != |rows[0]| {
        var j :| 0 <= j < |rows[1..]| && |rows[1..][j]| == MaxColumn(rows[1..]);
        assert |rows[j + 1]| == MaxColumn(rows);
      }
    }
  }

  /** The value of the cell in column `i` (from 0) of `row`, None when the row does not reach it. */
  function Cell(row: Row, i: nat): Option<string> {
    if i < |row| then Some(row[i]) else None
  }

  /** The values of columns 0 to `width` - 1 of `row`, as openpyxl reads them. */
  function ReadRow(row: Row, width: nat): seq<Option<string>> {
    if width == 0 then [] else ReadRow(row, width - 1) + [Cell(row, width - 1)]
  }

  lemma {:induction false} ReadRowCells(row: Row, width: nat)
    ensures |ReadRow(row, width)| == width
    ensures forall i :: 0 <= i < width ==> ReadRow(row, width)[i] == Cell(row, i)
  {
    if width > 0 {
      ReadRowCells(row, width - 1);
    }
  }

  /** The values read from row 1, columns 1 to `max_column`. */
  function HeaderCells(rows: seq<Row>): seq<Option<string>> {
    ReadRow(if rows == [] then [] else rows[0], MaxColumn(rows))
  }

  /** The comparison of those values with `PLANILHA_HEADERS`. */
  predicate HeaderMatches(rows: seq<Row>) {
    HeaderCells(rows) == ReadRow(HEADERS, |HEADERS|)
  }

  /**
   * The header check passes exactly when row 1 is the header and no row
   * is wider than the header: one extra cell anywhere in the sheet widens
   * `max_column` and makes row 1 read with a trailing empty cell.
   */
  lemma HeaderMatchesIff(rows: seq<Row>)
    ensures HeaderMatches(rows)
            <==> rows != [] && rows[0] == HEADERS && forall i :: 0 <= i < |rows| ==> |rows[i]| <= |HEADERS|
  {
    var first := if rows == [] then [] else rows[0];
    var width := MaxColumn(rows);
    MaxColumnBounds(rows);
    ReadRowCells(first, width);
    ReadRowCells(HEADERS, |HEADERS|);
    var cells := HeaderCells(rows);
    var expected := ReadRow(HEADERS, |HEADERS|);
    if HeaderMatches(rows) {
      assert width == |HEADERS|;
      assert cells[0] == expected[0];
      assert rows != [];
      forall i | 0 <= i < |HEADERS|
        ensures i < |rows[0]| && rows[0][i] == HEADERS[i]
      {
        assert cells[i] == expected[i];
      }
      assert |rows[0]| == |HEADERS| by {
        assert |rows[0]| <= width;
        var last := |HEADERS| - 1;
        assert cells[last] == expected[last];
      }
      assert rows[0] == HEADERS;
    }
    if rows != [] && rows[0] == HEADERS && forall i :: 0 <= i < |rows| ==> |rows[i]| <= |HEADERS| {
      assert |rows[0]| == |HEADERS|;
      assert width == |HEADERS|;
      assert cells == expected;
    }
  }

  /** Whether opening the file has to write a fresh workbook. */
  predicate NeedsRewrite(f: StoredFile) {
    f.Missing? || (f.Stored? && !HeaderMatches(f.rows))
  }

  /**
   * The sheet `_get_excel_sheet` returns, or None when it raises: the file
   * cannot be loaded, or the fresh workbook it must write cannot be saved.
   */
  function Open(f: StoredFile, writable: bool): Option<seq<Row>> {
    match f
    case Missing => if writable then Some([HEADERS]) else None
    case Unreadable => None
    case Stored(rows) =>
      if HeaderMatches(rows) then Some(rows)
      else if writable then Some([HEADERS])
      else None
  }

  /**
   * Opening fails exactly when the file is unreadable or must be
   * rewritten without the means to save; a sheet that opens always passes
   * the header check, a good file opens as it is, and a rewrite leaves
   * the header alone.
   */
  lemma OpenOutcome(f: StoredFile, writable: bool)
    ensures var r := Open(f, writable);
      && (r.None? <==> f.Unreadable? || (NeedsRewrite(f) && !writable))
      && (r.Some? ==> HeaderMatches(r.value))
      && (f.Stored? && HeaderMatches(f.rows) ==> r == Some(f.rows))
      && (r.Some? && NeedsRewrite(f) ==> r.value == [HEADERS])
  {
    FreshSheetMatches();
  }

  lemma FreshSheetMatches()
    ensures HeaderMatches([HEADERS])
  {
    HeaderMatchesIff([HEADERS]);
  }

  /** Opening the sheet that an open produced changes nothing: opening twice is opening once. */
  lemma OpenIdempotent(f: StoredFile, writable: bool, again: bool)
    requires Open(f, writable).Some?
    ensures Open(Stored(Open(f, writable).value), again) == Open(f, writable)
  {
    OpenOutcome(f, writable);
  }

  /**
   * Appending a row no wider than the header keeps the header check
   * passing, so the next open returns every earlier row and the new one.
   */
  lemma AppendThenReopen(rows: seq<Row>, row: Row, writable: bool)
    requires HeaderMatches(rows)
    requires |row| <= |HEADERS|
    ensures Open(Stored(rows + [row]), writable) == Some(rows + [row])
  {
    HeaderMatchesIff(rows);
    HeaderMatchesIff(rows + [row]);
  }

  /** A row wider than the header makes the next open throw the whole sheet away. */
  lemma WideRowLosesSheet(rows: seq<Row>, row: Row)
    requires |row| > |HEADERS|
    ensures Open(Stored(rows + [row]), true) == Some([HEADERS])
  {
    HeaderMatchesIff(rows + [row]);
    assert (rows + [row])[|rows|] == row;
  }
}
