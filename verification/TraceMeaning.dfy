/** What a clean trace report says, in plain terms: which texts, numbers, stages
    and ids must agree, and which changes are always noticed. */
module TraceMeaning {
  import opened Values
  import opened TraceValues
  import opened TraceCheck
  import opened TraceCsv
  import opened TraceReport

  // ---------------------------------------------------------------- texts

  /** The summary row of an id. */
  function SummaryOf(py: Python, a: Artifacts, id: int): Row {
    match Transfers(py, a.transfers)
    case Some(m) => if id in m then m[id] else NotRow
    case None => NotRow
  }

  function SummaryValue(py: Python, a: Artifacts, id: int, key: string): Val {
    var row := SummaryOf(py, a, id);
    if row.Row? then Get(row.fields, key) else Missing
  }

  function CellText(a: Artifacts, i: nat, column: string): Option<string>
    requires i + 1 < |a.transferCsv| && |a.transferCsv[i + 1]| == |a.transferCsv[0]|
  {
    Cell(a.transferCsv[0], a.transferCsv[i + 1], column)
  }

  /** Where two comparisons in a row leave three values that are no numbers. */
  lemma TextComposes(py: Python, cell: string, summary: Val, outcome: Val, key: string)
    requires !IsNumeric(key) && EqualValue(py, Actual(cell), summary, key) && EqualValue(py, summary, outcome, key)
    ensures outcome.Text? && !summary.Bool? ==> cell == outcome.s
    ensures outcome.Text? && summary.Text? ==> summary == outcome
    ensures outcome.Text? && !summary.Bool? && !summary.Text? && !summary.Missing? ==> py.show(summary) == outcome.s
    ensures outcome.Text? && summary.Missing? ==> outcome.s == ""
    ensures outcome.Text? && summary.Bool? ==> py.lower(py.show(summary)) == py.lower(outcome.s)
    ensures summary.Bool? && cell != "" ==> py.lower(cell) == py.lower(py.show(summary))
    ensures outcome.Missing? && !summary.Bool? ==> cell == ""
  {
    hide IsNumeric;
  }

  /** The two comparisons that a clean report has made of a column. */
  lemma TwiceCompared(py: Python, a: Artifacts, id: int, k: int, i: nat, column: string)
    requires Clean(py, a) && Terminal(py, RawEvents(a), id, k) && CsvRow(py, a, i, id)
    requires column in a.transferCsv[0] && Compared(Args(RawEvents(a)[k]), column) && !IsStage(column)
    ensures CellText(a, i, column).Some?
    ensures EqualValue(py, Actual(CellText(a, i, column).value), SummaryValue(py, a, id, column), column)
    ensures EqualValue(py, SummaryValue(py, a, id, column), Arg(RawEvents(a)[k], column), column)
  {
    hide Clean, Compared, IsStage, Terminal, RowId, Cell, EqualValue, SummaryOk, Required, Name, Transfers, Args, Arg, Get;
    CleanEvents(a, py);
    TerminalTraced(py, a, id, k);
    var k' := OutcomeGuaranteed(py, a, id);
    CsvAgrees(py, a, id, i, column);
    SummaryAgrees(py, Transfers(py, a.transfers).value[id], Args(RawEvents(a)[k]), column);
    ArgIs(RawEvents(a)[k], column);
    CellThere(a.transferCsv[0], a.transferCsv[i + 1], column);
  }

  /** The fields of an outcome that its summary row must repeat. */
  predicate SummaryKey(args: Fields, key: string) {
    key != "trace_schema_version" && key != "event_id" && (CommonKey(key) || (key in args && key != "stage_role"))
  }

  lemma SummaryKeyIs(args: Fields, key: string)
    ensures SummaryKey(args, key) <==> Compared(args, key)
  {
  }

  /** A column of text compared in both steps: where the raw outcome holds a
      text, the CSV cell is exactly that text, and so is the summary; with a
      truth value in the summary the lower-cased spellings agree. */
  lemma TextsAgree(py: Python, a: Artifacts, id: int, k: int, i: nat, column: string)
    requires Clean(py, a) && Terminal(py, RawEvents(a), id, k) && CsvRow(py, a, i, id)
    requires column in a.transferCsv[0] && SummaryKey(Args(RawEvents(a)[k]), column) && !IsNumeric(column)
    ensures CellText(a, i, column).Some?
    ensures var outcome, summary, cell := Arg(RawEvents(a)[k], column), SummaryValue(py, a, id, column), CellText(a, i, column).value;
            && (outcome.Text? && !summary.Bool? ==> cell == outcome.s)
            && (outcome.Text? && summary.Text? ==> summary.s == outcome.s)
            && (outcome.Text? && summary.Bool? ==> py.lower(py.show(summary)) == py.lower(outcome.s))
            && (outcome.Text? && summary.Bool? && cell != "" ==> py.lower(cell) == py.lower(outcome.s))
            && (outcome.Missing? && !summary.Bool? ==> cell == "")
  {
    hide Clean, Compared, SummaryKey, Terminal, RowId, Cell, EqualValue, IsStage, Arg, Args, SummaryValue;
    TerminalTraced(py, a, id, k);
    SummaryKeyIs(Args(RawEvents(a)[k]), column);
    StageIsNumeric(column);
    TwiceCompared(py, a, id, k, i, column);
    TextComposes(py, CellText(a, i, column).value, SummaryValue(py, a, id, column), Arg(RawEvents(a)[k], column), column);
  }

  lemma StageIsNumeric(column: string)
    ensures IsStage(column) ==> IsNumeric(column)
  {
  }

  // ---------------------------------------------------------------- a changed cell is noticed

  lemma {:induction false} OtherCell(header: Line, row: Line, j: nat, cell: string, column: string)
    requires |row| == |header| && j < |header| && header[j] != column
    ensures Cell(header, row[j := cell], column) == Cell(header, row, column)
  {
    var n := |header| - 1;
    if j < n {
      OtherCell(header[..n], row[..n], j, cell, column);
      assert row[j := cell][..n] == row[..n][j := cell];
    } else {
      assert row[j := cell][..n] == row[..n];
    }
  }

  /** The artifact with one cell of a row of `transfer_summary.csv` replaced. */
  function WithCell(a: Artifacts, i: nat, j: nat, cell: string): Artifacts
    requires i + 1 < |a.transferCsv| && j < |a.transferCsv[i + 1]|
  {
    a.(transferCsv := a.transferCsv[i + 1 := a.transferCsv[i + 1][j := cell]])
  }

  lemma IdIsNotCompared(args: Fields)
    ensures !Compared(args, "event_id")
  {
  }

  /** Replacing such a cell by any other text is always noticed. */
  lemma ChangedTextRejected(py: Python, a: Artifacts, id: int, k: int, i: nat, j: nat, cell: string)
    requires Clean(py, a) && Terminal(py, RawEvents(a), id, k) && CsvRow(py, a, i, id) && j < |a.transferCsv[0]|
    requires var column := a.transferCsv[0][j];
             && SummaryKey(Args(RawEvents(a)[k]), column) && !IsNumeric(column)
             && Arg(RawEvents(a)[k], column).Text? && Arg(RawEvents(a)[k], column).s != cell
             && !SummaryValue(py, a, id, column).Bool?
    ensures !Clean(py, WithCell(a, i, j, cell))
  {
    hide Clean, Compared, SummaryKey, Terminal, Cell, IsNumeric, SummaryValue, Args, Arg, RowId;
    var column, a' := a.transferCsv[0][j], WithCell(a, i, j, cell);
    var header, row := a.transferCsv[0], a.transferCsv[i + 1];
    TerminalTraced(py, a, id, k);
    SummaryKeyIs(Args(RawEvents(a)[k]), column);
    IdIsNotCompared(Args(RawEvents(a)[k]));
    OtherCell(header, row, j, cell, "event_id");
    SameRowId(py, header, row, row[j := cell]);
    assert a'.transferCsv[0] == header && a'.transferCsv[i + 1] == row[j := cell];
    assert CsvRow(py, a', i, id);
    SameSummary(py, a, a', id, column);
    if Clean(py, a') {
      TextsAgree(py, a', id, k, i, column);
      CleanHeader(py, a');
      CellAt(header, row[j := cell], j);
    }
  }

  lemma SameRowId(py: Python, header: Line, row: Line, other: Line)
    requires |row| == |header| == |other| && Cell(header, row, "event_id") == Cell(header, other, "event_id")
    ensures RowId(py, header, row) == RowId(py, header, other)
  {
    hide Cell;
  }

  lemma SameSummary(py: Python, a: Artifacts, b: Artifacts, id: int, key: string)
    requires a.transfers == b.transfers
    ensures SummaryValue(py, a, id, key) == SummaryValue(py, b, id, key)
  {
    hide Transfers;
  }

  lemma CleanHeader(py: Python, a: Artifacts)
    requires Clean(py, a)
    ensures a.transferCsv != [] && NoRepeats(a.transferCsv[0]) && forall c :: c in REQUIRED_COLUMNS ==> c in a.transferCsv[0]
    ensures StageCsvClean(a.stageCsv) && HeadClean(a) && FlagsClean(py, a) && RawClean(py, RawEvents(a))
  {
    hide HeadClean, Group, Transfers, RawClean, EventsClean, FlagsClean, StageCsvClean, IdsRead, IdsDiffer, RowOk, NoRepeats, REQUIRED_COLUMNS;
    EventsThere(a);
  }

  // ---------------------------------------------------------------- stage columns

  lemma StageColumn(role: string)
    ensures var column := "stage_" + role + "_us"; IsStage(column) && StageRole(column) == role
  {
    var column := "stage_" + role + "_us";
    assert STAGE_PREFIX <= column;
    assert column[|column| - 3..] == "_us";
    assert column[6..|column| - 3] == role;
  }

  /** The CSV column of a stage is within tolerance of the stage's duration in
      the summary. */
  lemma StagesAgree(py: Python, a: Artifacts, id: int, i: nat, role: string)
    requires Clean(py, a) && CsvRow(py, a, i, id) && "stage_" + role + "_us" in a.transferCsv[0]
    ensures SummaryOf(py, a, id).Row? && SummaryOf(py, a, id).stages.Some?
    ensures Within(py, CsvCell(a, i, "stage_" + role + "_us"), Get(SummaryOf(py, a, id).stages.value, role), Tolerance)
  {
    hide HeadClean, Group, Transfers, RawClean, EventsClean, FlagsClean, StageCsvClean, RowId, ById, NoRepeats, REQUIRED_COLUMNS, IdsRead, IdsDiffer;
    hide Within, Get, Cell, IsStage, StageRole;
    var column := "stage_" + role + "_us";
    StageColumn(role);
    hide STAGE_PREFIX, STAGE_SUFFIX;
    var csv, transfers := a.transferCsv, Transfers(py, a.transfers).value;
    var header, rows := csv[0], csv[1..];
    assert rows[i] == csv[i + 1];
    ByIdAt(py, header, rows, i);
    assert RowOk(py, header, rows[i], transfers[id]);
    var j :| 0 <= j < |header| && header[j] == column;
    assert CellOk(py, header[j], Cell(header, rows[i], header[j]).value, transfers[id]);
  }

  // ---------------------------------------------------------------- polled events

  /** What a polled event says agrees with the raw outcome: `event_status` with
      its status, and any other member with the member of that name. */
  lemma PollsAgree(py: Python, a: Artifacts, id: int, k: int, key: string)
    requires Clean(py, a) && Terminal(py, RawEvents(a), id, k) && id in a.poll && key in a.poll[id]
    ensures var name, args := if key == "event_status" then "status" else key, Args(RawEvents(a)[k]);
            name in args ==>
              && (IsNumeric(name) ==> Within(py, args[name], a.poll[id][key], Tolerance))
              && (!IsNumeric(name) && args[name].Text? && a.poll[id][key].Text? ==> args[name] == a.poll[id][key])
  {
    hide Clean, Terminal, Within, IsNumeric, Args;
    PolledOutcome(py, a, id, k);
    assert PollFieldOk(py, a.poll[id], Args(RawEvents(a)[k]), key);
  }

  /** The group of an id, and its one outcome. */
  lemma CleanGroup(py: Python, a: Artifacts, id: int, k: int)
    requires Clean(py, a) && Terminal(py, RawEvents(a), id, k)
    ensures 0 <= k < |RawEvents(a)| && SummaryOf(py, a, id).Row?
    ensures var group := Select(py, RawEvents(a), id);
            && EventClean(py, group, Some(SummaryOf(py, a, id)), Find(a.poll, id))
            && |Outcomes(group)| == 1 && Outcomes(group)[0] == RawEvents(a)[k]
  {
    hide Group, Transfers, RawClean, StageCsvClean, TransferCsvClean, FlagsClean, HeadClean, Placed, Outcomes, Select, IsOutcome;
    hide ContextOk, StageOk, OutcomeOk, SummaryOk, PollOk;
    EventsThere(a);
    var events := RawEvents(a);
    GroupExact(py, events, id);
    assert id in Group(py, events);
    assert EventClean(py, Group(py, events)[id], Find(Transfers(py, a.transfers).value, id), Find(a.poll, id));
    var k' := OneOutcome(py, events, id);
    assert k == k';
  }

  lemma PolledOutcome(py: Python, a: Artifacts, id: int, k: int)
    requires Clean(py, a) && Terminal(py, RawEvents(a), id, k) && id in a.poll
    ensures 0 <= k < |RawEvents(a)| && PollOk(py, a.poll[id], Args(RawEvents(a)[k]))
  {
    hide Clean, Terminal, ContextOk, StageOk, OutcomeOk, SummaryOk, PollOk, Outcomes, Select, Args;
    CleanGroup(py, a, id, k);
  }

  // ---------------------------------------------------------------- the raw events

  /** A number that is not negative; it may be infinite or no number at all. */
  predicate NotNegative(f: Float) { f != NegInf && (f.Finite? ==> f.r >= 0.0) }

  /** Every raw event has a time that is not negative, a span a duration that is
      not, and all have arguments. */
  lemma EventsSay(py: Python, a: Artifacts, k: int)
    requires Clean(py, a) && 0 <= k < |RawEvents(a)|
    ensures var e := RawEvents(a)[k];
            && e.Event? && e.args.Some? && ToFloat(py, e.ts).Some? && NotNegative(ToFloat(py, e.ts).value)
            && (e.ph == Text("X") ==> ToFloat(py, e.dur).Some? && NotNegative(ToFloat(py, e.dur).value))
  {
    hide Clean, ToFloat;
    CleanHeader(py, a);
    assert GoodRaw(py, RawEvents(a)[k]);
  }

  lemma {:induction false} TimesAt(py: Python, events: seq<Raw>)
    requires forall i :: 0 <= i < |events| ==> events[i].Event? && ToFloat(py, events[i].ts).Some?
    ensures |Times(py, events)| == |events|
    ensures forall i :: 0 <= i < |events| ==> Times(py, events)[i] == ToFloat(py, events[i].ts).value
  {
    hide ToFloat;
    if events != [] { TimesAt(py, events[..|events| - 1]); }
  }

  /** Finite times never go back. */
  lemma TimesAscend(py: Python, a: Artifacts, j: int, k: int)
    requires Clean(py, a) && 0 <= j < k < |RawEvents(a)|
    requires forall i :: 0 <= i < |RawEvents(a)| ==>
               RawEvents(a)[i].Event? && ToFloat(py, RawEvents(a)[i].ts).Some? && ToFloat(py, RawEvents(a)[i].ts).value.Finite?
    ensures ToFloat(py, RawEvents(a)[j].ts).value.r <= ToFloat(py, RawEvents(a)[k].ts).value.r
  {
    hide Clean, ToFloat;
    CleanHeader(py, a);
    TimesAt(py, RawEvents(a));
  }

  /** A raw event with a positive event id: the id has a summary row and a CSV
      row whose cell names it. */
  lemma EveryTransferListed(py: Python, a: Artifacts, k: int, id: int)
    requires Clean(py, a) && 0 <= k < |RawEvents(a)| && id > 0 && Arg(RawEvents(a)[k], "event_id") == Int(id)
    ensures Traced(py, a, id) && SummaryOf(py, a, id).Row?
    ensures exists i :: CsvRow(py, a, i, id) && CellText(a, i, "event_id").Some?
              && py.parseInt(CellText(a, i, "event_id").value) == Some(id)
  {
    hide Clean, Cell, Transfers, Placed, Arg, RowId, REQUIRED_COLUMNS, NoRepeats, StageCsvClean, HeadClean, FlagsClean, RawClean;
    EventsSay(py, a, k);
    IdPlaced(py, RawEvents(a)[k], id);
    IdsCorrespond(py, a, id);
    CleanEvents(a, py);
    ListedRow(py, a, id);
    var i :| CsvRow(py, a, i, id);
    CleanHeader(py, a);
    IdRequired();
    CellThere(a.transferCsv[0], a.transferCsv[i + 1], "event_id");
    IdRead(py, a.transferCsv[0], a.transferCsv[i + 1]);
  }

  lemma IdPlaced(py: Python, e: Raw, id: int)
    requires e.Event? && e.args.Some? && ToFloat(py, e.ts).Some? && id > 0 && Arg(e, "event_id") == Int(id)
    ensures Placed(py, e) == Some(id)
  {
    hide ToFloat;
  }

  lemma IdRead(py: Python, header: Line, row: Line)
    requires |row| == |header| && Cell(header, row, "event_id").Some?
    ensures RowId(py, header, row) == py.parseInt(Cell(header, row, "event_id").value)
  {
    hide Cell;
  }

  lemma ListedRow(py: Python, a: Artifacts, id: int)
    requires Clean(py, a) && Transfers(py, a.transfers).Some? && id in Transfers(py, a.transfers).value
    ensures SummaryOf(py, a, id).Row?
  {
    hide Transfers;
    TransfersAreRows(py, a.transfers);
  }

  lemma IdRequired()
    ensures "event_id" in REQUIRED_COLUMNS
  {
    assert REQUIRED_COLUMNS[0] == "event_id";
  }

  // ---------------------------------------------------------------- one transfer

  lemma {:induction false} Selected(py: Python, events: seq<Raw>, id: int, j: int)
    requires 0 <= j < |events| && Placed(py, events[j]) == Some(id)
    ensures events[j] in Select(py, events, id)
  {
    hide Placed;
    if j < |events| - 1 { Selected(py, events[..|events| - 1], id, j); }
  }

  lemma {:induction false} PrintedValue(py: Python, events: seq<Raw>, key: string, e: Raw)
    requires e in events && key in Args(e)
    ensures Spelled(py, Args(e)[key]) in Printed(py, events, key)
  {
    hide Spelled, Args;
    var n := |events| - 1;
    if e != events[n] { PrintedValue(py, events[..n], key, e); }
  }

  lemma OneElement(s: set<string>, x: string, y: string)
    requires |s| == 1 && x in s && y in s
    ensures x == y
  {
    var rest := s - {x};
    assert s == rest + {x};
    assert |rest| == 0;
    assert rest == {};
  }

  /** A value that Python takes for false. */
  predicate Empty(v: Val) {
    || v == Missing || v == Text("") || v == Int(0) || v == Val.Bool(false) || v == Real(Finite(0.0)) || v == Other(false)
  }

  lemma EmptyIs(v: Val)
    ensures Empty(v) <==> !Truthy(v)
  {
  }

  predicate CommonKey(key: string) {
    key in ["trace_schema_version", "event_id", "plan_id", "src_object_id", "dst_object_id", "src_medium", "dst_medium", "direction",
            "operation", "requested_mode", "bytes", "planned_path", "planned_engine"]
  }

  lemma CommonKeyIs(key: string)
    ensures CommonKey(key) <==> key in COMMON_KEYS
  {
  }

  /** All raw events of a transfer carry schema 2, a stage role, and the same
      spelling of each common key. */
  lemma ContextShared(py: Python, a: Artifacts, id: int, k: int, i: int, j: int, key: string)
    requires Clean(py, a) && Terminal(py, RawEvents(a), id, k)
    requires 0 <= i < |RawEvents(a)| && Placed(py, RawEvents(a)[i]) == Some(id)
    requires 0 <= j < |RawEvents(a)| && Placed(py, RawEvents(a)[j]) == Some(id)
    ensures Arg(RawEvents(a)[i], "trace_schema_version") == Text("2") && !Empty(Arg(RawEvents(a)[i], "stage_role"))
    ensures CommonKey(key) && key in Args(RawEvents(a)[i]) && key in Args(RawEvents(a)[j]) ==>
              Spelled(py, Args(RawEvents(a)[i])[key]) == Spelled(py, Args(RawEvents(a)[j])[key])
  {
    hide Clean, Terminal, OutcomeOk, SummaryOk, PollOk, Outcomes, Select, Args, Printed, Spelled, COMMON_KEYS, CommonKey, Truthy, Empty, Placed;
    var events := RawEvents(a);
    var group := Select(py, events, id);
    CleanGroup(py, a, id, k);
    Selected(py, events, id, i);
    Selected(py, events, id, j);
    var g :| 0 <= g < |group| && group[g] == events[i];
    assert StageOk(group[g]);
    EmptyIs(Arg(events[i], "stage_role"));
    if CommonKey(key) && key in Args(events[i]) && key in Args(events[j]) {
      CommonKeyIs(key);
      PrintedValue(py, group, key, events[i]);
      PrintedValue(py, group, key, events[j]);
      OneElement(Printed(py, group, key), Spelled(py, Args(events[i])[key]), Spelled(py, Args(events[j])[key]));
    }
  }

  predicate OutcomeKey(key: string) {
    key in ["status", "bytes_done", "actual_path", "actual_engine", "actual_latency_us", "actual_bandwidth_gib_s",
            "fallback_used", "fallback_reason", "error_code", "error_message"]
  }

  lemma OutcomeKeyIs(key: string)
    ensures OutcomeKey(key) <==> key in OUTCOME_KEYS
  {
  }

  /** A path given as a text is that text. */
  lemma PathText(py: Python, args: Fields, key: string)
    ensures Get(args, key).Text? ==> PathOf(py, args, key) == Get(args, key).s
  {
  }

  /** Of the common and the outcome fields, the seven compared as numbers. */
  lemma NumberFields(key: string)
    requires CommonKey(key) || OutcomeKey(key)
    ensures IsNumeric(key) <==> key in ["plan_id", "src_object_id", "dst_object_id", "bytes", "bytes_done",
                                        "actual_latency_us", "actual_bandwidth_gib_s"]
  {
    hide NUMERIC_KEYS;
    FieldsNumeric();
    if key in NUMERIC_KEYS { FieldsText(key); }
  }

  lemma FieldsNumeric()
    ensures {"plan_id", "src_object_id", "dst_object_id", "bytes", "bytes_done", "actual_latency_us", "actual_bandwidth_gib_s"} <= NUMERIC_KEYS
  {
  }

  /** What tells the other fields from the numeric columns. */
  predicate Numberish(key: string) {
    && |key| >= 5 && key[0] != 't' && key[0] != 'e' && key[0] != 'f'
    && (key[0] == 's' || key[0] == 'd' || key[0] == 'o' ==> |key| >= 12)
    && (key[0] == 'r' ==> key[2] == 'l') && (key[0] == 'p' ==> |key| == 7) && (key[0] == 'a' ==> |key| >= 17)
  }

  lemma FieldsText(key: string)
    requires key in NUMERIC_KEYS
    ensures Numberish(key)
  {
    hide TRANSFER_NUMBERS, CHANNEL_NUMBERS, STORAGE_NUMBERS, DIRECT_NUMBERS, Numberish;
    if key in TRANSFER_NUMBERS { TransferNumbers(key); }
    if key in CHANNEL_NUMBERS { ChannelNumbers(key); }
    if key in STORAGE_NUMBERS { StorageNumbers(key); }
    if key in DIRECT_NUMBERS { DirectNumbers(key); }
  }

  lemma TransferNumbers(key: string)
    requires key in TRANSFER_NUMBERS
    ensures Numberish(key)
  {
  }

  lemma ChannelNumbers(key: string)
    requires key in CHANNEL_NUMBERS
    ensures Numberish(key)
  {
  }

  lemma StorageNumbers(key: string)
    requires key in STORAGE_NUMBERS
    ensures Numberish(key)
  {
  }

  lemma DirectNumbers(key: string)
    requires key in DIRECT_NUMBERS
    ensures Numberish(key)
  {
  }

  predicate DirectPath(v: Val) { v == Text("ssd_to_hbm_direct") || v == Text("hbm_to_ssd_direct") }

  /** The outcome of a transfer is an instant that has all ten outcome fields; a
      direct attempt between SSD and HBM is labelled logical, and one that fell
      back to a relay says so and why. */
  lemma OutcomeSays(py: Python, a: Artifacts, id: int, k: int)
    requires Clean(py, a) && Terminal(py, RawEvents(a), id, k)
    ensures var e := RawEvents(a)[k];
            && e.Event? && e.ph == Text("i") && (forall key :: OutcomeKey(key) ==> key in Args(e))
            && (!Empty(Arg(e, "direct_candidate")) || DirectPath(Arg(e, "actual_path")) ==> Arg(e, "direct_kind") == Text("logical"))
            && (DirectPath(Arg(e, "planned_path")) && Contains(PathOf(py, Args(e), "actual_path"), "via_ddr") ==>
                  Arg(e, "fallback_used") == Text("true") && !Empty(Arg(e, "fallback_reason")))
            && (DirectPath(Arg(e, "planned_path")) && Arg(e, "actual_path").Text? && Contains(Arg(e, "actual_path").s, "via_ddr") ==>
                  Arg(e, "fallback_used") == Text("true") && !Empty(Arg(e, "fallback_reason")))
  {
    hide Clean, Terminal, ContextOk, StageOk, SummaryOk, PollOk, Outcomes, Select, Truthy, RolesCovered, Contains, Args, Get, PathOf;
    hide OUTCOME_KEYS, OutcomeKey, Empty;
    CleanGroup(py, a, id, k);
    EmptyIs(Arg(RawEvents(a)[k], "direct_candidate"));
    PathText(py, Args(RawEvents(a)[k]), "actual_path");
    EmptyIs(Arg(RawEvents(a)[k], "fallback_reason"));
    forall key | OutcomeKey(key) ensures key in Args(RawEvents(a)[k]) { OutcomeKeyIs(key); }
  }

  // ---------------------------------------------------------------- the stages of a transfer

  /** Some raw event of the transfer carries the stage role. */
  ghost predicate HasStage(py: Python, a: Artifacts, id: int, name: string) {
    exists j :: Carries(py, RawEvents(a), id, j, name)
  }

  lemma NamesAre()
    ensures Name(Final) == "outcome" && Name(QueueWait) == "queue_wait" && Name(WorkerExecute) == "worker_execute"
    ensures Name(LaneAcquire) == "lane_acquire" && Name(LaneBusy) == "lane_busy" && Name(CpuCopy) == "cpu_copy"
    ensures Name(AclSubmit) == "acl_submit" && Name(AclWait) == "acl_wait" && Name(SsdIo) == "ssd_io"
    ensures Name(RelayStage) == "relay_stage" && Name(DirectSetup) == "direct_setup" && Name(AclCopy) == "acl_copy"
  {
  }

  /** The stages that a transfer with the given paths must show. */
  ghost predicate StagesShown(py: Python, a: Artifacts, id: int, planned: string, actual: string) {
    && HasStage(py, a, id, "queue_wait") && HasStage(py, a, id, "worker_execute")
    && (actual == "memfd_pinned_hbm_channel" || Contains(actual, "direct_mmap") || Contains(actual, "direct_thp") ==>
          && HasStage(py, a, id, "lane_acquire") && HasStage(py, a, id, "lane_busy")
          && HasStage(py, a, id, "acl_submit") && HasStage(py, a, id, "acl_wait"))
    && (actual == "memfd_pinned_hbm_channel" || actual == "ddr_to_ddr" ==> HasStage(py, a, id, "cpu_copy"))
    && (actual == "ssd_to_ddr" || actual == "ddr_to_ssd" ==> HasStage(py, a, id, "ssd_io"))
    && (Contains(actual, "via_ddr") && !Contains(actual, "direct_mmap") && !Contains(actual, "direct_thp") ==>
          && HasStage(py, a, id, "ssd_io") && HasStage(py, a, id, "relay_stage")
          && (planned == "ssd_to_hbm_direct" || planned == "hbm_to_ssd_direct" ==> HasStage(py, a, id, "direct_setup")))
    && (actual == "ssd_to_hbm_direct" || actual == "hbm_to_ssd_direct" ==>
          HasStage(py, a, id, "direct_setup") && HasStage(py, a, id, "acl_wait"))
    && (actual == "hbm_to_hbm" ==> HasStage(py, a, id, "acl_copy"))
  }

  /** Every transfer shows its outcome; one that completed by moving bytes shows
      the stages of its path, by name. */
  lemma StagesNamed(py: Python, a: Artifacts, id: int, k: int)
    requires Clean(py, a) && Terminal(py, RawEvents(a), id, k)
    ensures 0 <= k < |RawEvents(a)| && HasStage(py, a, id, "outcome")
    ensures var args := Args(RawEvents(a)[k]);
            var planned, actual := PathOf(py, args, "planned_path"), PathOf(py, args, "actual_path");
            Get(args, "status") == Text("complete") && planned != "direct_ref" && actual != "direct_ref" ==>
              StagesShown(py, a, id, planned, actual)
    ensures var status, planned, actual := Get(Args(RawEvents(a)[k]), "status"), Get(Args(RawEvents(a)[k]), "planned_path"), Get(Args(RawEvents(a)[k]), "actual_path");
            status == Text("complete") && planned.Text? && actual.Text? && planned.s != "direct_ref" && actual.s != "direct_ref" ==>
              StagesShown(py, a, id, planned.s, actual.s)
  {
    hide Clean, Terminal, Args, Carries, Name, Contains, RequiredRoles, PathOf, SummaryOk;
    TerminalTraced(py, a, id, k);
    var k' := OutcomeGuaranteed(py, a, id);
    var args := Args(RawEvents(a)[k]);
    var planned, actual := PathOf(py, args, "planned_path"), PathOf(py, args, "actual_path");
    PathText(py, args, "planned_path");
    PathText(py, args, "actual_path");
    FinalNeeded(py, args);
    assert HasStage(py, a, id, Name(Final));
    NamesAre();
    if Get(args, "status") == Text("complete") && planned != "direct_ref" && actual != "direct_ref" {
      assert forall role :: role in RequiredRoles(true, planned, actual) ==> HasStage(py, a, id, Name(role));
      PathStages(py, a, id, planned, actual);
    }
  }

  lemma FinalNeeded(py: Python, args: Fields)
    ensures Final in Required(py, args)
  {
    RoleTable(Get(args, "status") == Text("complete"), PathOf(py, args, "planned_path"), PathOf(py, args, "actual_path"));
  }

  lemma PathStages(py: Python, a: Artifacts, id: int, planned: string, actual: string)
    requires planned != "direct_ref" && actual != "direct_ref"
    requires forall role :: role in RequiredRoles(true, planned, actual) ==> HasStage(py, a, id, Name(role))
    ensures StagesShown(py, a, id, planned, actual)
  {
    hide HasStage, Name, Contains, RequiredRoles;
    NamesAre();
    RoleTable(true, planned, actual);
    PathsDiffer(actual);
    var roles := RequiredRoles(true, planned, actual);
    assert QueueWait in roles ==> HasStage(py, a, id, Name(QueueWait));
    assert WorkerExecute in roles ==> HasStage(py, a, id, Name(WorkerExecute));
    assert LaneAcquire in roles ==> HasStage(py, a, id, Name(LaneAcquire));
    assert LaneBusy in roles ==> HasStage(py, a, id, Name(LaneBusy));
    assert CpuCopy in roles ==> HasStage(py, a, id, Name(CpuCopy));
    assert AclSubmit in roles ==> HasStage(py, a, id, Name(AclSubmit));
    assert AclWait in roles ==> HasStage(py, a, id, Name(AclWait));
    assert SsdIo in roles ==> HasStage(py, a, id, Name(SsdIo));
    assert RelayStage in roles ==> HasStage(py, a, id, Name(RelayStage));
    assert DirectSetup in roles ==> HasStage(py, a, id, Name(DirectSetup));
    assert AclCopy in roles ==> HasStage(py, a, id, Name(AclCopy));
  }

  // ---------------------------------------------------------------- the artifact as a whole

  /** The columns that `transfer_summary.csv` must have. */
  predicate RequiredColumn(c: string) {
    || (CommonKey(c) && c != "trace_schema_version") || OutcomeKey(c)
    || c in ["schema_version", "channel_device_id", "stage_queue_wait_us", "stage_worker_execute_us", "stage_cpu_copy_us",
             "stage_acl_submit_us", "stage_acl_wait_us", "stage_ssd_io_us", "stage_relay_stage_us", "stage_direct_setup_us",
             "sum_of_span_durations_us", "span_minus_actual_latency_us", "outcome_count", "context_consistent"]
  }

  lemma RequiredColumnIs(c: string)
    ensures RequiredColumn(c) <==> c in REQUIRED_COLUMNS
  {
  }

  /** The header has every required column, and none twice. */
  lemma ColumnsSay(py: Python, a: Artifacts)
    requires Clean(py, a)
    ensures a.transferCsv != [] && forall c :: RequiredColumn(c) ==> c in a.transferCsv[0]
    ensures var header := a.transferCsv[0]; forall i, j :: 0 <= i < j < |header| ==> header[i] != header[j]
  {
    hide Clean, REQUIRED_COLUMNS, RequiredColumn, StageCsvClean, HeadClean, FlagsClean, RawClean;
    CleanHeader(py, a);
    forall c | RequiredColumn(c) ensures c in a.transferCsv[0] { RequiredColumnIs(c); }
  }

  /** All files are there, both schemas are 2, the counts agree, no id is listed
      as incomplete, nothing counts as dropped, and the stage table has its
      seven columns. */
  lemma HeadSays(py: Python, a: Artifacts)
    requires Clean(py, a)
    ensures forall i :: 0 <= i < |a.present| ==> a.present[i]
    ensures (a.rawSchema == Int(2) || a.rawSchema == Real(Finite(2.0))) && (a.summarySchema == Int(2) || a.summarySchema == Real(Finite(2.0)))
    ensures a.events.Some? && (a.eventCount.Int? ==> a.eventCount.n == |a.events.value|)
    ensures a.incomplete == Some([]) && (a.dropped.Int? ==> a.dropped.n <= 0 && (a.complete <==> a.dropped.n == 0))
    ensures a.stageCsv != [] && a.stageCsv[0] == ["category", "name", "count", "total_us", "avg_us", "max_us", "bytes"]
    ensures forall i :: 0 <= i < |a.stageCsv| ==> |a.stageCsv[i]| == 7
  {
    hide Clean, RawClean;
    CleanHeader(py, a);
    var csv := a.stageCsv;
    assert forall i :: 1 <= i < |csv| ==> csv[i] == csv[1..][i - 1];
  }
}
