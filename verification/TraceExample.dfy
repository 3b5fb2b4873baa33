/** A trace of one transfer that the checker reports clean: the guarantees of
    a clean report are not empty. */
module TraceExample {
  import opened Values
  import opened TraceValues
  import opened TraceCheck
  import opened TraceCsv
  import opened TraceReport

  const ID: int := 5
  const BYTES: string := "bytes"

  function Py(): Python {
    Python((_: string) => Some(Finite(5.0)), (_: string) => Some(ID), (_: Val) => "5", (s: string) => s, (_: seq<Float>) => true)
  }

  function ArgOf(key: string): Val {
    if key == "event_id" || key == BYTES then Int(ID)
    else if key == "trace_schema_version" then Text("2")
    else if key == "stage_role" then Text("outcome")
    else Missing
  }

  function OutcomeArgs(): Fields {
    map key | key in COMMON_KEYS + OUTCOME_KEYS + ["stage_role"] :: ArgOf(key)
  }

  function TransferOutcome(): Raw {
    Event(Int(0), Text("i"), Missing, Text("transfer.outcome"), Some(OutcomeArgs()))
  }

  function SummaryRow(): Row { Row(OutcomeArgs(), Some(map[])) }

  /** A list without its repeated elements. */
  function Once(s: seq<string>): seq<string> {
    if s == [] then []
    else
      var front, last := Once(s[..|s| - 1]), s[|s| - 1];
      if last in front then front else front + [last]
  }

  function CellFor(column: string): string {
    if IsStage(column) then ""
    else
      match Get(OutcomeArgs(), column)
      case Text(s) => s
      case Int(_) => "5"
      case _ => ""
  }

  function Cells(header: Line): Line { seq(|header|, j requires 0 <= j < |header| => CellFor(header[j])) }

  function Header(): Line { Once(REQUIRED_COLUMNS) }

  function Example(): Artifacts {
    Artifacts([true, true, true, true, true], Int(2), Some([TransferOutcome()]), Int(2), Int(1), [SummaryRow()], Some([]),
              Int(0), true, map[], [STAGE_CSV_HEADER], [Header(), Cells(Header())])
  }

  lemma {:induction false} OnceEach(s: seq<string>)
    ensures NoRepeats(Once(s)) && forall c :: c in s <==> c in Once(s)
  {
    if s != [] {
      var init, c := s[..|s| - 1], s[|s| - 1];
      OnceEach(init);
      assert s == init + [c];
    }
  }

  // ---------------------------------------------------------------- the raw event and its summary

  lemma ArgsHold(key: string)
    ensures Get(OutcomeArgs(), key) == Missing || Get(OutcomeArgs(), key) == ArgOf(key)
    ensures key in COMMON_KEYS || key in OUTCOME_KEYS || key == "stage_role" ==>
              key in OutcomeArgs() && OutcomeArgs()[key] == ArgOf(key)
  {
    hide COMMON_KEYS, OUTCOME_KEYS, ArgOf;
  }

  lemma CommonKeys()
    ensures "event_id" in COMMON_KEYS && "trace_schema_version" in COMMON_KEYS && BYTES in TRANSFER_KEYS && BYTES in COMMON_KEYS
  {
    assert COMMON_KEYS[0] == "trace_schema_version" && COMMON_KEYS[1] == "event_id";
    assert TRANSFER_KEYS[8] == BYTES && COMMON_KEYS[10] == BYTES;
  }

  lemma SpecialArgs()
    ensures ArgOf("event_id") == Int(ID) && ArgOf("trace_schema_version") == Text("2") && ArgOf("stage_role") == Text("outcome")
    ensures ArgOf("status") == Missing && ArgOf("direct_candidate") == Missing
    ensures ArgOf("actual_path") == Missing && ArgOf("planned_path") == Missing
  {
  }

  lemma OutcomeStands()
    ensures var e := TransferOutcome();
            && GoodRaw(Py(), e) && !Raises(Py(), e) && Placed(Py(), e) == Some(ID) && IsOutcome(e) && StageOk(e)
  {
    hide OutcomeArgs, ArgOf, COMMON_KEYS, OUTCOME_KEYS;
    CommonKeys();
    SpecialArgs();
    ArgsHold("event_id");
    ArgsHold("trace_schema_version");
    ArgsHold("stage_role");
  }

  lemma OneEvent(e: Raw)
    ensures IsOutcome(e) ==> Outcomes([e]) == [e]
    ensures forall key :: key in Args(e) ==> Printed(Py(), [e], key) == {Spelled(Py(), Args(e)[key])}
    ensures Truthy(Arg(e, "stage_role")) ==> Observed(Py(), [e]) == {Spelled(Py(), Arg(e, "stage_role"))}
  {
    hide IsOutcome, Spelled, Truthy;
    assert [e][..0] == [];
  }

  lemma OutcomeComplete()
    ensures var e := TransferOutcome(); OutcomeOk(Py(), e, [e])
  {
    hide OutcomeArgs, ArgOf, COMMON_KEYS, OUTCOME_KEYS, Name, Observed, Required;
    var e := TransferOutcome();
    var args := Args(e);
    SpecialArgs();
    ArgsHold("stage_role");
    ArgsHold("status");
    ArgsHold("direct_candidate");
    ArgsHold("actual_path");
    ArgsHold("planned_path");
    OneEvent(e);
    OnlyFinal(args);
    forall key | key in OUTCOME_KEYS ensures key in args { ArgsHold(key); }
    assert LabelOk(args) && FallbackOk(Py(), args);
    assert RolesCovered(Py(), args, [e]);
  }

  lemma OnlyFinal(args: Fields)
    requires Get(args, "status") == Missing
    ensures Required(Py(), args) == {Final} && Name(Final) == "outcome"
  {
  }

  /** A value agrees with itself. */
  lemma SameValue(v: Val, key: string)
    requires v == Missing || v == Int(ID) || v.Text?
    ensures EqualValue(Py(), v, v, key)
  {
    hide IsNumeric;
  }

  lemma EventStands()
    ensures EventClean(Py(), [TransferOutcome()], Some(SummaryRow()), None)
  {
    hide OutcomeArgs, ArgOf, COMMON_KEYS, OUTCOME_KEYS, StageOk, OutcomeOk, EqualValue, IsOutcome, Printed, Compared, Spelled;
    var e := TransferOutcome();
    OutcomeStands();
    OneEvent(e);
    OutcomeComplete();
    forall key | key in COMMON_KEYS ensures |Printed(Py(), [e], key)| == 1 { ArgsHold(key); }
    forall key ensures EqualValue(Py(), Get(SummaryRow().fields, key), Get(Args(e), key), key) {
      ArgsHold(key);
      ArgIsPlain(key);
      SameValue(Get(Args(e), key), key);
    }
  }

  lemma ArgIsPlain(key: string)
    ensures ArgOf(key) == Missing || ArgOf(key) == Int(ID) || (ArgOf(key).Text? && ArgOf(key).s != "")
  {
  }

  // ---------------------------------------------------------------- the CSV row

  lemma CellStands(column: string)
    ensures CellOk(Py(), column, CellFor(column), SummaryRow())
  {
    hide OutcomeArgs, ArgOf, IsStage, IsNumeric, StageRole, Tolerance;
    ArgsHold(column);
    ArgIsPlain(column);
    SameValue(Text("5"), column);
    Zero();
  }

  lemma Zero()
    ensures Abs(5.0 - 5.0) <= Tolerance(5.0)
  {
  }

  lemma CsvStands()
    ensures TransferCsvClean(Py(), Example().transferCsv, map[ID := SummaryRow()])
    ensures RowId(Py(), Header(), Cells(Header())) == Some(ID)
  {
    hide REQUIRED_COLUMNS, Once, CellOk, CellFor, OutcomeArgs, NoRepeats, Cell;
    var header, cells := Header(), Cells(Header());
    var csv, rows := Example().transferCsv, [cells];
    OnceEach(REQUIRED_COLUMNS);
    assert csv[0] == header && csv[1..] == rows;
    assert rows[..0] == [];
    assert ById(Py(), header, rows) == map[ID := cells];
    forall j | 0 <= j < |header|
      ensures Cell(header, cells, header[j]).Some? && CellOk(Py(), header[j], Cell(header, cells, header[j]).value, SummaryRow())
    {
      CellAt(header, cells, j);
      CellStands(header[j]);
    }
    assert RowOk(Py(), header, cells, SummaryRow());
    assert |map[ID := SummaryRow()]| == 1;
  }

  // ---------------------------------------------------------------- the whole artifact

  lemma TraceStands()
    ensures var a := Example();
            && HeadClean(a) && RawClean(Py(), a.events.value) && FlagsClean(Py(), a) && StageCsvClean(a.stageCsv)
            && Group(Py(), a.events.value) == map[ID := [TransferOutcome()]]
  {
    hide GoodRaw, Raises, Placed, TransferOutcome, Header, Cells, STAGE_CSV_HEADER;
    OutcomeStands();
    OneGroup(TransferOutcome());
    assert Example().stageCsv[1..] == [];
  }

  lemma OneGroup(e: Raw)
    requires Placed(Py(), e) == Some(ID)
    ensures Group(Py(), [e]) == map[ID := [e]]
    ensures e.Event? && ToFloat(Py(), e.ts).Some? ==> |Times(Py(), [e])| == 1
  {
    hide Placed, ToFloat;
    assert [e][..0] == [];
    assert Group(Py(), []) == map[];
    var none: seq<Raw> := [];
    assert none + [e] == [e];
    assert Place(map[], ID, e) == map[ID := [e]];
  }

  lemma SummaryStands()
    ensures Transfers(Py(), [SummaryRow()]) == Some(map[ID := SummaryRow()]) && SummaryRow().Row?
  {
    hide OutcomeArgs, ArgOf, COMMON_KEYS;
    CommonKeys();
    SpecialArgs();
    ArgsHold("event_id");
    assert [SummaryRow()][..0] == [];
  }

  lemma ExampleChecks()
    ensures Clean(Py(), Example())
  {
    hide HeadClean, RawClean, FlagsClean, StageCsvClean, TransferCsvClean, EventClean, Group, Transfers, TransferOutcome, SummaryRow;
    hide Header, Cells, STAGE_CSV_HEADER, Py;
    TraceStands();
    SummaryStands();
    EventStands();
    CsvStands();
    var grouped, transfers := map[ID := [TransferOutcome()]], map[ID := SummaryRow()];
    assert Example().events.value == [TransferOutcome()] && Example().transfers == [SummaryRow()] && Example().poll == map[];
    assert EventsClean(Py(), grouped, transfers, map[]);
    assert transfers.Keys == grouped.Keys;
  }

  /** The hypotheses of `TraceReport.NumbersAgree` hold of the example, with the
      transferred bytes as the column. */
  lemma ExampleIsClean()
    ensures Clean(Py(), Example()) && Terminal(Py(), RawEvents(Example()), ID, 0) && CsvRow(Py(), Example(), 0, ID)
    ensures BYTES in Example().transferCsv[0] && Compared(Args(RawEvents(Example())[0]), BYTES)
    ensures IsNumeric(BYTES) && !IsStage(BYTES)
  {
    hide Clean, TransferCsvClean, TransferOutcome, SummaryRow, Header, CellFor, IsNumeric, IsStage, TRANSFER_KEYS;
    hide RowId, Placed, IsOutcome, STAGE_CSV_HEADER, Py;
    ExampleChecks();
    CsvStands();
    OutcomeStands();
    ByteColumn();
  }

  lemma ByteColumn()
    ensures BYTES in Header() && BYTES in TRANSFER_KEYS && IsNumeric(BYTES) && !IsStage(BYTES)
  {
    CommonKeys();
    OnceEach(REQUIRED_COLUMNS);
    hide Once;
    assert REQUIRED_COLUMNS[10] == BYTES;
  }
}
