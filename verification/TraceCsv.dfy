/** The two CSV files of a trace artifact against its summary. */
module TraceCsv {
  import opened Values
  import opened TraceValues
  import opened TraceCheck

  type Line = seq<string>

  predicate Rectangular(header: Line, rows: seq<Line>) { forall i :: 0 <= i < |rows| ==> |rows[i]| == |header| }

  method CheckWidths(header: Line, rows: seq<Line>) returns (faults: seq<Fault>)
    ensures faults == [] <==> Rectangular(header, rows)
  {
    faults := [];
    for i := 0 to |rows|
      invariant faults == [] <==> Rectangular(header, rows[..i])
    {
      assert rows[..i + 1] == rows[..i] + [rows[i]];
      assert forall j :: 0 <= j < i ==> rows[..i + 1][j] == rows[..i][j];
      if |rows[i]| != |header| { faults := faults + [RowWidth(i)]; }
    }
    assert rows[..|rows|] == rows;
  }

  predicate StageCsvClean(csv: seq<Line>) {
    csv != [] && csv[0] == STAGE_CSV_HEADER && Rectangular(csv[0], csv[1..])
  }

  method CheckStageCsv(csv: seq<Line>) returns (faults: seq<Fault>)
    ensures faults == [] <==> StageCsvClean(csv)
  {
    hide Rectangular, STAGE_CSV_HEADER;
    if csv == [] { return [EmptyCsv]; }
    faults := CheckWidths(csv[0], csv[1..]);
    if csv[0] != STAGE_CSV_HEADER { faults := faults + [Fault.Columns]; }
  }

  // ---------------------------------------------------------------- rows of transfer_summary.csv

  predicate NoRepeats(s: Line) { forall i, j :: 0 <= i < j < |s| ==> s[i] != s[j] }

  /** The cell under a column, the last one where a column repeats. */
  function Cell(header: Line, row: Line, column: string): Option<string>
    requires |row| == |header|
  {
    if header == [] then None
    else if header[|header| - 1] == column then Some(row[|header| - 1])
    else Cell(header[..|header| - 1], row[..|header| - 1], column)
  }

  lemma {:induction false} CellAt(header: Line, row: Line, j: nat)
    requires |row| == |header| && j < |header| && NoRepeats(header)
    ensures Cell(header, row, header[j]) == Some(row[j])
  {
    var n := |header| - 1;
    if j < n { CellAt(header[..n], row[..n], j); }
  }

  function RowId(py: Python, header: Line, row: Line): Option<int>
    requires |row| == |header|
  {
    py.parseInt(match Cell(header, row, "event_id") case Some(s) => s case None => "0")
  }

  function StageRole(column: string): string {
    if |column| < |STAGE_PREFIX| + |STAGE_SUFFIX| then ""
    else column[|STAGE_PREFIX|..|column| - |STAGE_SUFFIX|]
  }

  /** What the summary holds for a column; None where an error is raised. */
  function Expected(row: Row, column: string): Option<Val>
    requires row.Row?
  {
    if IsStage(column) then
      (if row.stages.Some? then Some(Get(row.stages.value, StageRole(column))) else None)
    else Some(Get(row.fields, column))
  }

  function Actual(cell: string): Val { if cell == "" then Missing else Text(cell) }

  predicate CellOk(py: Python, column: string, cell: string, row: Row)
    requires row.Row?
  {
    Expected(row, column).Some? && EqualValue(py, Actual(cell), Expected(row, column).value, column)
  }

  predicate RowOk(py: Python, header: Line, cells: Line, row: Row)
    requires |cells| == |header| && row.Row?
  {
    forall j :: 0 <= j < |header| ==>
      Cell(header, cells, header[j]).Some? && CellOk(py, header[j], Cell(header, cells, header[j]).value, row)
  }

  lemma {:induction false} CellThere(header: Line, row: Line, column: string)
    requires |row| == |header|
    ensures Cell(header, row, column).Some? <==> column in header
  {
    if header != [] { CellThere(header[..|header| - 1], row[..|header| - 1], column); }
  }

  /** Rows by event id: those of the right width whose id is an integer. */
  function ById(py: Python, header: Line, rows: seq<Line>): (m: map<int, Line>)
    ensures forall id :: id in m ==> |m[id]| == |header|
  {
    if rows == [] then map[]
    else
      var row, m := rows[|rows| - 1], ById(py, header, rows[..|rows| - 1]);
      if |row| != |header| then m
      else match RowId(py, header, row) case None => m case Some(id) => m[id := row]
  }

  predicate IdsRead(py: Python, header: Line, rows: seq<Line>) {
    forall i :: 0 <= i < |rows| && |rows[i]| == |header| ==> RowId(py, header, rows[i]).Some?
  }

  predicate IdsDiffer(py: Python, header: Line, rows: seq<Line>) {
    forall i, j :: 0 <= i < j < |rows| && |rows[i]| == |header| && |rows[j]| == |header| ==>
      RowId(py, header, rows[i]).None? || RowId(py, header, rows[i]) != RowId(py, header, rows[j])
  }

  lemma {:induction false} ByIdFrom(py: Python, header: Line, rows: seq<Line>, id: int)
    ensures id in ById(py, header, rows) <==>
            exists i :: 0 <= i < |rows| && |rows[i]| == |header| && RowId(py, header, rows[i]) == Some(id)
  {
    hide RowId;
    if rows != [] {
      var n := |rows| - 1;
      ByIdFrom(py, header, rows[..n], id);
      if i :| 0 <= i < n && |rows[..n][i]| == |header| && RowId(py, header, rows[..n][i]) == Some(id) {
        assert rows[i] == rows[..n][i];
      }
      assert forall i :: 0 <= i < n ==> rows[..n][i] == rows[i];
    }
  }

  lemma {:induction false} ByIdAt(py: Python, header: Line, rows: seq<Line>, i: nat)
    requires i < |rows| && |rows[i]| == |header| && RowId(py, header, rows[i]).Some?
    requires IdsDiffer(py, header, rows)
    ensures var id := RowId(py, header, rows[i]).value;
            id in ById(py, header, rows) && ById(py, header, rows)[id] == rows[i]
  {
    hide RowId;
    var n := |rows| - 1;
    if i < n { ByIdAt(py, header, rows[..n], i); }
  }

  method ReadIds(py: Python, header: Line, rows: seq<Line>) returns (byEvent: map<int, Line>, faults: seq<Fault>)
    ensures byEvent == ById(py, header, rows)
    ensures faults == [] <==> IdsRead(py, header, rows) && IdsDiffer(py, header, rows)
  {
    hide RowId, IdsRead, IdsDiffer, ById;
    byEvent, faults := map[], [];
    NoRows(py, header);
    for i := 0 to |rows|
      invariant byEvent == ById(py, header, rows[..i])
      invariant faults == [] <==> IdsRead(py, header, rows[..i]) && IdsDiffer(py, header, rows[..i])
    {
      OneMoreRow(py, header, rows, i);
      var row := rows[i];
      if |row| == |header| {
        match RowId(py, header, row)
        case None => faults := faults + [BadId(i)];
        case Some(id) =>
          if id in byEvent { faults := faults + [SameId(i)]; }
          byEvent := byEvent[id := row];
      }
    }
    assert rows[..|rows|] == rows;
  }

  lemma NoRows(py: Python, header: Line)
    ensures ById(py, header, []) == map[] && IdsRead(py, header, []) && IdsDiffer(py, header, [])
  {
  }

  lemma {:induction false} OneMoreRow(py: Python, header: Line, rows: seq<Line>, i: nat)
    requires i < |rows|
    ensures var row, before, after := rows[i], rows[..i], rows[..i + 1];
            if |row| != |header| then
              && ById(py, header, after) == ById(py, header, before)
              && (IdsRead(py, header, after) <==> IdsRead(py, header, before))
              && (IdsDiffer(py, header, after) <==> IdsDiffer(py, header, before))
            else match RowId(py, header, row) {
              case None => ById(py, header, after) == ById(py, header, before) && !IdsRead(py, header, after)
              case Some(id) =>
                && ById(py, header, after) == ById(py, header, before)[id := row]
                && (IdsRead(py, header, after) <==> IdsRead(py, header, before))
                && (IdsDiffer(py, header, after) <==> IdsDiffer(py, header, before) && id !in ById(py, header, before))
            }
  {
    hide RowId;
    var row, before, after := rows[i], rows[..i], rows[..i + 1];
    assert after[..i] == before;
    assert forall j :: 0 <= j < i ==> after[j] == before[j];
    assert after[i] == row;
    if |row| == |header| && RowId(py, header, row).Some? {
      ByIdFrom(py, header, before, RowId(py, header, row).value);
    }
  }

  // ---------------------------------------------------------------- the whole file

  predicate RowsAre(rows: map<int, Row>) { forall id :: id in rows ==> rows[id].Row? }

  ghost predicate TransferCsvClean(py: Python, csv: seq<Line>, transfers: map<int, Row>)
    requires RowsAre(transfers)
  {
    && csv != []
    && var header, rows := csv[0], csv[1..];
    && NoRepeats(header) && (forall c :: c in REQUIRED_COLUMNS ==> c in header)
    && Rectangular(header, rows) && |rows| == |transfers|
    && IdsRead(py, header, rows) && IdsDiffer(py, header, rows)
    && ById(py, header, rows).Keys == transfers.Keys
    && (forall id :: id in transfers ==> RowOk(py, header, ById(py, header, rows)[id], transfers[id]))
  }

  function Columns(s: Line): set<string> { set c | c in s }

  lemma ColumnsSnoc(s: Line, c: string)
    ensures Columns(s + [c]) == Columns(s) + {c}
    ensures NoRepeats(s + [c]) <==> NoRepeats(s) && c !in s
  {
    var t := s + [c];
    assert forall i :: 0 <= i < |s| ==> t[i] == s[i];
    assert t[|s|] == c;
  }

  lemma {:induction false} ColumnCount(s: Line)
    ensures |Columns(s)| <= |s|
    ensures |Columns(s)| == |s| <==> NoRepeats(s)
  {
    if s != [] {
      var init, c := s[..|s| - 1], s[|s| - 1];
      assert s == init + [c];
      ColumnCount(init);
      ColumnsSnoc(init, c);
      hide NoRepeats;
      assert c in init <==> c in Columns(init);
      hide Columns;
      if c in Columns(init) { assert Columns(init) + {c} == Columns(init); }
    }
  }

  /** One row against its summary; None where an error is raised. */
  method CheckRow(py: Python, id: int, header: Line, cells: Line, row: Row) returns (r: Option<seq<Fault>>)
    requires |cells| == |header| && row.Row?
    ensures r == Some([]) <==> RowOk(py, header, cells, row)
  {
    hide Cell, Expected, EqualValue, Actual;
    var faults: seq<Fault> := [];
    for j := 0 to |header|
      invariant faults == [] <==>
                forall i :: 0 <= i < j ==>
                  Cell(header, cells, header[i]).Some? && CellOk(py, header[i], Cell(header, cells, header[i]).value, row)
    {
      CellThere(header, cells, header[j]);
      var expected := Expected(row, header[j]);
      if expected.None? { return None; }
      if !EqualValue(py, Actual(Cell(header, cells, header[j]).value), expected.value, header[j]) {
        faults := faults + [CsvMismatch(id)];
      }
    }
    return Some(faults);
  }

  method CheckRows(py: Python, header: Line, byEvent: map<int, Line>, transfers: map<int, Row>) returns (r: Option<seq<Fault>>)
    requires RowsAre(transfers) && forall id :: id in byEvent ==> |byEvent[id]| == |header|
    ensures r == Some([]) <==>
            forall id :: id in byEvent && id in transfers ==> RowOk(py, header, byEvent[id], transfers[id])
  {
    var faults: seq<Fault> := [];
    var rest := byEvent.Items;
    while rest != {}
      invariant rest <= byEvent.Items
      invariant faults == [] <==>
                forall id :: id in byEvent && (id, byEvent[id]) !in rest && id in transfers ==>
                  RowOk(py, header, byEvent[id], transfers[id])
    {
      var item :| item in rest;
      var id := item.0;
      if id in transfers {
        var row := CheckRow(py, id, header, byEvent[id], transfers[id]);
        if row.None? { return None; }
        faults := faults + row.value;
      }
      rest := rest - {item};
    }
    return Some(faults);
  }

  method CheckTransferCsv(py: Python, csv: seq<Line>, transfers: map<int, Row>) returns (r: Option<seq<Fault>>)
    requires RowsAre(transfers)
    ensures r == Some([]) <==> TransferCsvClean(py, csv, transfers)
  {
    hide NoRepeats, Rectangular, REQUIRED_COLUMNS, IdsRead, IdsDiffer, ById, RowOk, RowsAre;
    if csv == [] { return Some([EmptyCsv]); }
    var header, rows := csv[0], csv[1..];
    var faults: seq<Fault> := [];
    ColumnCount(header);
    if |Columns(header)| != |header| { faults := faults + [Fault.Columns]; }
    if exists c :: c in REQUIRED_COLUMNS && c !in header { faults := faults + [Fault.Columns]; }
    var widths := CheckWidths(header, rows);
    faults := faults + widths;
    if |rows| != |transfers| { faults := faults + [RowCount]; }
    var byEvent, ids := ReadIds(py, header, rows);
    faults := faults + ids;
    if byEvent.Keys != transfers.Keys { faults := faults + [CsvIds]; }
    var cells := CheckRows(py, header, byEvent, transfers);
    if cells.None? { return None; }
    return Some(faults + cells.value);
  }
}
