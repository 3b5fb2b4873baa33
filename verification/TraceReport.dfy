/** The whole check of a trace artifact, and what a clean report guarantees. */
module TraceReport {
  import opened Values
  import opened TraceValues
  import opened TraceCheck
  import opened TraceCsv

  datatype Artifacts = Artifacts(
    present: seq<bool>, rawSchema: Val, events: Option<seq<Raw>>, summarySchema: Val, eventCount: Val,
    transfers: seq<Row>, incomplete: Option<seq<Val>>, dropped: Val, complete: bool,
    poll: map<int, Fields>, stageCsv: seq<Line>, transferCsv: seq<Line>)

  const SCHEMA_VERSION: int := 2

  function RawEvents(a: Artifacts): seq<Raw> { if a.events.Some? then a.events.value else [] }

  function Find<T>(m: map<int, T>, id: int): Option<T> { if id in m then Some(m[id]) else None }

  predicate InOrder(py: Python, times: seq<Float>) {
    if forall i :: 0 <= i < |times| ==> times[i].Finite? then
      forall i, j :: 0 <= i < j < |times| ==> times[i].r <= times[j].r
    else py.inOrder(times)
  }

  ghost predicate RawClean(py: Python, events: seq<Raw>) {
    && (forall i :: 0 <= i < |events| ==> GoodRaw(py, events[i]) && !Raises(py, events[i]))
    && InOrder(py, Times(py, events))
  }

  ghost predicate EventsClean(py: Python, grouped: map<int, seq<Raw>>, transfers: map<int, Row>, poll: map<int, Fields>) {
    forall id :: id in grouped ==> EventClean(py, grouped[id], Find(transfers, id), Find(poll, id))
  }

  ghost predicate FlagsClean(py: Python, a: Artifacts) {
    var dropped := ToInt(py, a.dropped);
    && a.incomplete == Some([])
    && dropped.Number? && dropped.n <= 0 && a.complete == (dropped.n == 0)
  }

  predicate HeadClean(a: Artifacts) {
    && (forall i :: 0 <= i < |a.present| ==> a.present[i])
    && EqualsInt(a.rawSchema, SCHEMA_VERSION) && EqualsInt(a.summarySchema, SCHEMA_VERSION)
    && a.events.Some? && EqualsInt(a.eventCount, |a.events.value|)
  }

  lemma {:induction false} TransfersAreRows(py: Python, rows: seq<Row>)
    ensures Transfers(py, rows).Some? ==> RowsAre(Transfers(py, rows).value)
  {
    hide ToInt, Get;
    if rows != [] { TransfersAreRows(py, rows[..|rows| - 1]); }
  }

  /** Everything a clean report has checked. */
  ghost predicate Clean(py: Python, a: Artifacts) {
    && HeadClean(a)
    && RawClean(py, a.events.value)
    && Transfers(py, a.transfers).Some?
    && var grouped, transfers := Group(py, a.events.value), Transfers(py, a.transfers).value;
    && EventsClean(py, grouped, transfers, a.poll)
    && transfers.Keys == grouped.Keys
    && FlagsClean(py, a)
    && StageCsvClean(a.stageCsv)
    && RowsAre(transfers) && TransferCsvClean(py, a.transferCsv, transfers)
  }

  // ---------------------------------------------------------------- the check

  predicate Ascending(ids: seq<int>) { forall i, j :: 0 <= i < j < |ids| ==> ids[i] < ids[j] }

  lemma Inhabited(s: set<int>)
    requires s != {}
    ensures exists x :: x in s
  {
    if forall x: int :: x !in s { assert false; }
  }

  lemma {:induction false} Smallest(s: set<int>) returns (least: int)
    requires s != {}
    ensures least in s && forall y :: y in s ==> least <= y
    decreases |s|
  {
    Inhabited(s);
    var x :| x in s;
    var rest := s - {x};
    assert s == rest + {x};
    least := x;
    if rest != {} {
      var z := Smallest(rest);
      if z < x { least := z; }
    }
  }

  /** The ids in ascending order, each once. */
  predicate Lists(ids: seq<int>, s: set<int>) {
    && Ascending(ids)
    && (forall i :: 0 <= i < |ids| ==> ids[i] in s)
    && (forall x :: x in s ==> exists i :: 0 <= i < |ids| && ids[i] == x)
  }

  method Sorted(s: set<int>) returns (ids: seq<int>)
    ensures Lists(ids, s)
  {
    ids := [];
    var rest := s;
    while rest != {}
      invariant rest <= s && Ascending(ids)
      invariant forall i :: 0 <= i < |ids| ==> ids[i] in s
      invariant forall x :: x in s && x !in rest ==> exists i :: 0 <= i < |ids| && ids[i] == x
      invariant forall i, y :: 0 <= i < |ids| && y in rest ==> ids[i] < y
      decreases |rest|
    {
      ghost var least := Smallest(rest);
      var x :| x in rest && forall y :: y in rest ==> x <= y;
      ghost var before := ids;
      ids := ids + [x];
      assert forall i :: 0 <= i < |before| ==> ids[i] == before[i];
      assert ids[|before|] == x;
      rest := rest - {x};
    }
  }

  method CheckEvents(py: Python, ids: seq<int>, grouped: map<int, seq<Raw>>, transfers: map<int, Row>, poll: map<int, Fields>)
    returns (faults: seq<Fault>, single: bool)
    requires RowsAre(transfers) && forall i :: 0 <= i < |ids| ==> ids[i] in grouped
    ensures faults == [] <==>
            forall i :: 0 <= i < |ids| ==> EventClean(py, grouped[ids[i]], Find(transfers, ids[i]), Find(poll, ids[i]))
    ensures single <==> forall i :: 0 <= i < |ids| ==> |Outcomes(grouped[ids[i]])| == 1
  {
    hide EventClean, Outcomes;
    faults, single := [], true;
    for i := 0 to |ids|
      invariant faults == [] <==>
                forall j :: 0 <= j < i ==> EventClean(py, grouped[ids[j]], Find(transfers, ids[j]), Find(poll, ids[j]))
      invariant single <==> forall j :: 0 <= j < i ==> |Outcomes(grouped[ids[j]])| == 1
    {
      var id := ids[i];
      var found := CheckEvent(py, id, grouped[id], Find(transfers, id), Find(poll, id));
      faults := faults + found;
      single := single && |Outcomes(grouped[id])| == 1;
    }
  }

  predicate SameIds(listed: Option<seq<Val>>, ids: seq<int>) {
    && listed.Some? && |listed.value| == |ids|
    && forall i :: 0 <= i < |ids| ==> EqualsInt(listed.value[i], ids[i])
  }

  /** The flags of the summary; None where an error is raised. */
  method CheckFlags(py: Python, a: Artifacts, grouped: map<int, seq<Raw>>, single: bool) returns (r: Option<seq<Fault>>)
    ensures single && (forall id :: id in grouped ==> |Outcomes(grouped[id])| == 1) ==>
              (r == Some([]) <==> FlagsClean(py, a))
  {
    hide Outcomes, ToInt;
    var faults: seq<Fault> := [];
    var open := set id | id in grouped && Outcomes(grouped[id]) == [];
    var expected := Sorted(open);
    if open != {} { Inhabited(open); }
    if expected != [] {
      var id := expected[0];
      assert id in open;
    }
    if !SameIds(a.incomplete, expected) { faults := faults + [Fault.IncompleteIds]; }
    var dropped := ToInt(py, a.dropped);
    if !dropped.Number? { return None; }
    if dropped.n > 0 { faults := faults + [DroppedEvents]; }
    if a.complete != (dropped.n == 0 && expected == [] && single) { faults := faults + [CompleteFlag]; }
    return Some(faults);
  }

  method CheckHead(a: Artifacts) returns (faults: seq<Fault>)
    requires forall i :: 0 <= i < |a.present| ==> a.present[i]
    ensures faults == [] <==> HeadClean(a)
  {
    hide EqualsInt;
    faults := [];
    if !EqualsInt(a.rawSchema, SCHEMA_VERSION) { faults := faults + [Schema]; }
    if !EqualsInt(a.summarySchema, SCHEMA_VERSION) { faults := faults + [Schema]; }
    if a.events.None? { faults := faults + [NotAList]; }
    if !EqualsInt(a.eventCount, |RawEvents(a)|) { faults := faults + [Fault.EventCount]; }
  }

  /** The checker: None stands for an exception, which the caller reports as a failure. */
  method Check(py: Python, a: Artifacts) returns (r: Option<seq<Fault>>)
    ensures r == Some([]) <==> Clean(py, a)
  {
    hide HeadClean, Transfers, Group, EventClean, Find, StageCsvClean, TransferCsvClean, FlagsClean, InOrder, Times, GoodRaw, Raises, RowsAre;
    if exists i :: 0 <= i < |a.present| && !a.present[i] {
      AbsentArtifact(a);
      return Some([MissingArtifact]);
    }
    var faults := CheckHead(a);
    var scan := ScanRaw(py, RawEvents(a));
    EventsThere(a);
    if scan.None? { return None; }
    var grouped := scan.value.grouped;
    faults := faults + scan.value.faults;
    if !InOrder(py, scan.value.times) { faults := faults + [TimeOrder]; }
    var transfers := Transfers(py, a.transfers);
    if transfers.None? { return None; }
    TransfersAreRows(py, a.transfers);
    var ids := Sorted(grouped.Keys);
    var events, single := CheckEvents(py, ids, grouped, transfers.value, a.poll);
    faults := faults + events;
    if transfers.value.Keys != grouped.Keys { faults := faults + [IdSets]; }
    var flags := CheckFlags(py, a, grouped, single);
    if flags.None? {
      OneOutcomeEach(py, ids, grouped, transfers.value, a.poll);
      return None;
    }
    var stages := CheckStageCsv(a.stageCsv);
    var csv := CheckTransferCsv(py, a.transferCsv, transfers.value);
    OneOutcomeEach(py, ids, grouped, transfers.value, a.poll);
    if csv.None? { return None; }
    return Some(faults + flags.value + stages + csv.value);
  }

  lemma AbsentArtifact(a: Artifacts)
    requires exists i :: 0 <= i < |a.present| && !a.present[i]
    ensures !HeadClean(a)
  {
  }

  lemma EventsThere(a: Artifacts)
    ensures HeadClean(a) ==> a.events == Some(RawEvents(a))
  {
  }

  lemma OneOutcomeEach(py: Python, ids: seq<int>, grouped: map<int, seq<Raw>>, transfers: map<int, Row>, poll: map<int, Fields>)
    requires Lists(ids, grouped.Keys)
    ensures EventsClean(py, grouped, transfers, poll) <==>
            forall i :: 0 <= i < |ids| ==> EventClean(py, grouped[ids[i]], Find(transfers, ids[i]), Find(poll, ids[i]))
    ensures EventsClean(py, grouped, transfers, poll) ==> forall id :: id in grouped ==> |Outcomes(grouped[id])| == 1
  {
    hide ContextOk, StageOk, OutcomeOk, SummaryOk, PollOk, Find, Outcomes;
  }

  // ---------------------------------------------------------------- what a clean report guarantees

  /** The k-th raw event is a terminal outcome of the id. */
  predicate Terminal(py: Python, events: seq<Raw>, id: int, k: int) {
    0 <= k < |events| && Placed(py, events[k]) == Some(id) && IsOutcome(events[k])
  }

  lemma {:induction false} NoOutcome(py: Python, events: seq<Raw>, id: int, k: int)
    requires Outcomes(Select(py, events, id)) == []
    ensures !Terminal(py, events, id, k)
  {
    hide Placed, IsOutcome;
    if events != [] {
      var n := |events| - 1;
      var before, es := Select(py, events[..n], id), Select(py, events, id);
      if Placed(py, events[n]) == Some(id) { assert es[..|es| - 1] == before; }
      NoOutcome(py, events[..n], id, k);
    }
  }

  /** One outcome in the group is one terminal event among the raw ones. */
  lemma {:induction false} OneOutcome(py: Python, events: seq<Raw>, id: int) returns (k: int)
    requires |Outcomes(Select(py, events, id))| == 1
    ensures Terminal(py, events, id, k) && events[k] == Outcomes(Select(py, events, id))[0]
    ensures forall j :: Terminal(py, events, id, j) ==> j == k
  {
    hide Placed, IsOutcome;
    var n := |events| - 1;
    var before, es := Select(py, events[..n], id), Select(py, events, id);
    if Placed(py, events[n]) == Some(id) { assert es[..|es| - 1] == before; }
    if Placed(py, events[n]) == Some(id) && IsOutcome(events[n]) {
      k := n;
      forall j | Terminal(py, events, id, j) ensures j == k {
        assert j < n ==> events[..n][j] == events[j];
        NoOutcome(py, events[..n], id, j);
      }
    } else {
      k := OneOutcome(py, events[..n], id);
      forall j | Terminal(py, events, id, j) ensures j == k { assert Terminal(py, events[..n], id, j); }
    }
  }

  /** The k-th raw event belongs to the id and carries the role. */
  predicate Carries(py: Python, events: seq<Raw>, id: int, k: int, role: string) {
    && 0 <= k < |events| && Placed(py, events[k]) == Some(id)
    && Spelled(py, Arg(events[k], "stage_role")) == role
  }

  lemma {:induction false} RoleSeen(py: Python, events: seq<Raw>, id: int, role: string)
    requires role in Observed(py, Select(py, events, id))
    ensures exists k :: Carries(py, events, id, k, role)
  {
    hide Placed, Spelled, Arg, Truthy;
    var n := |events| - 1;
    var before, es := Select(py, events[..n], id), Select(py, events, id);
    if Placed(py, events[n]) == Some(id) { assert es[..|es| - 1] == before; }
    if role in Observed(py, before) {
      RoleSeen(py, events[..n], id, role);
      var k :| Carries(py, events[..n], id, k, role);
      assert Carries(py, events, id, k, role);
    } else {
      assert Carries(py, events, id, n, role);
    }
  }

  /** An id that occurs in the raw trace. */
  ghost predicate Traced(py: Python, a: Artifacts, id: int) {
    exists i :: 0 <= i < |RawEvents(a)| && Placed(py, RawEvents(a)[i]) == Some(id)
  }

  predicate CsvRow(py: Python, a: Artifacts, i: int, id: int) {
    && 1 <= i + 1 < |a.transferCsv| && |a.transferCsv[i + 1]| == |a.transferCsv[0]|
    && RowId(py, a.transferCsv[0], a.transferCsv[i + 1]) == Some(id)
  }

  ghost predicate Identified(py: Python, a: Artifacts, i: int) { exists id :: CsvRow(py, a, i, id) }

  /** Raw ids, summary ids and CSV rows are in one-to-one correspondence. */
  lemma IdsCorrespond(py: Python, a: Artifacts, id: int)
    requires Clean(py, a)
    ensures Traced(py, a, id) <==> id in Transfers(py, a.transfers).value
    ensures Traced(py, a, id) <==> exists i :: CsvRow(py, a, i, id)
    ensures forall i, j :: CsvRow(py, a, i, id) && CsvRow(py, a, j, id) ==> i == j
    ensures forall i :: 0 <= i < |a.transferCsv| - 1 ==> Identified(py, a, i)
    ensures |a.transferCsv| == |Transfers(py, a.transfers).value| + 1
  {
    hide Group, Transfers, RawClean, EventsClean, FlagsClean, StageCsvClean, RowId, RowOk, ById, Placed, NoRepeats, REQUIRED_COLUMNS;
    var events, csv := a.events.value, a.transferCsv;
    var header, rows := csv[0], csv[1..];
    GroupExact(py, events, id);
    ByIdFrom(py, header, rows, id);
    assert forall i :: 0 <= i < |rows| ==> rows[i] == csv[i + 1];
    if i :| 0 <= i < |rows| && |rows[i]| == |header| && RowId(py, header, rows[i]) == Some(id) {
      assert CsvRow(py, a, i, id);
    }
    if i :| CsvRow(py, a, i, id) {
      assert rows[i] == csv[i + 1];
      assert id in ById(py, header, rows);
    }
    EventsThere(a);
    assert Traced(py, a, id) <==> id in Group(py, events);
    assert id in Group(py, events) <==> id in ById(py, header, rows);
    forall i | 0 <= i < |csv| - 1 ensures Identified(py, a, i) {
      assert RowId(py, header, rows[i]).Some?;
      assert CsvRow(py, a, i, RowId(py, header, rows[i]).value);
    }
    forall i, j | CsvRow(py, a, i, id) && CsvRow(py, a, j, id) ensures i == j {
      assert rows[i] == csv[i + 1] && rows[j] == csv[j + 1];
    }
  }

  /** Every traced id has exactly one terminal outcome, among events that carry
      every role the outcome requires; no id is incomplete. */
  lemma OutcomeGuaranteed(py: Python, a: Artifacts, id: int) returns (k: int)
    requires Clean(py, a) && Traced(py, a, id)
    ensures Terminal(py, RawEvents(a), id, k) && forall j :: Terminal(py, RawEvents(a), id, j) ==> j == k
    ensures forall role :: role in Required(py, Args(RawEvents(a)[k])) ==>
              exists j :: Carries(py, RawEvents(a), id, j, Name(role))
    ensures a.incomplete == Some([])
    ensures id in Transfers(py, a.transfers).value && Transfers(py, a.transfers).value[id].Row?
    ensures SummaryOk(py, Transfers(py, a.transfers).value[id], Args(RawEvents(a)[k]))
  {
    hide Group, Transfers, RawClean, StageCsvClean, TransferCsvClean, Required, Name, SummaryOk, PollOk, ContextOk, StageOk, LabelOk, FallbackOk, OUTCOME_KEYS, Args, Carries, Placed, Outcomes, Observed, Select;
    var events := a.events.value;
    GroupExact(py, events, id);
    var group := Group(py, events)[id];
    assert EventClean(py, group, Find(Transfers(py, a.transfers).value, id), Find(a.poll, id));
    k := OneOutcome(py, events, id);
    forall role | role in Required(py, Args(events[k])) ensures exists j :: Carries(py, events, id, j, Name(role)) {
      RoleSeen(py, events, id, Name(role));
    }
  }

  /** The cell of a row under a column. */
  function CsvCell(a: Artifacts, i: nat, column: string): Val
    requires i + 1 < |a.transferCsv| && |a.transferCsv[i + 1]| == |a.transferCsv[0]|
  {
    match Cell(a.transferCsv[0], a.transferCsv[i + 1], column)
    case Some(cell) => Actual(cell)
    case None => Missing
  }

  /** A numeric column compared in both steps: its CSV cell and the raw outcome
      are both missing, or both finite and within the composed tolerance. */
  lemma NumbersAgree(py: Python, a: Artifacts, id: int, k: int, i: nat, column: string)
    requires Clean(py, a) && Terminal(py, RawEvents(a), id, k) && CsvRow(py, a, i, id)
    requires column in a.transferCsv[0] && Compared(Args(RawEvents(a)[k]), column)
    requires IsNumeric(column) && !IsStage(column)
    ensures Within(py, CsvCell(a, i, column), Arg(RawEvents(a)[k], column), Composed)
  {
    hide Clean, Within, Compared, IsNumeric, IsStage, Terminal, RowId, Cell, EqualValue, SummaryOk, Required, Name, Transfers, Args, Arg;
    CleanEvents(a, py);
    TerminalTraced(py, a, id, k);
    var k' := OutcomeGuaranteed(py, a, id);
    var row := Transfers(py, a.transfers).value[id];
    var args := Args(RawEvents(a)[k]);
    CsvAgrees(py, a, id, i, column);
    SummaryAgrees(py, row, args, column);
    ArgIs(RawEvents(a)[k], column);
    EqualComposes(py, CsvCell(a, i, column), Get(row.fields, column), Get(args, column), column);
  }

  lemma CleanEvents(a: Artifacts, py: Python)
    requires Clean(py, a)
    ensures a.events == Some(RawEvents(a)) && Transfers(py, a.transfers).Some?
  {
    hide HeadClean, Transfers, RawClean, EventsClean, FlagsClean, StageCsvClean, TransferCsvClean, RowsAre;
    EventsThere(a);
  }

  lemma ArgIs(e: Raw, key: string)
    ensures Arg(e, key) == Get(Args(e), key)
  {
  }

  lemma TerminalTraced(py: Python, a: Artifacts, id: int, k: int)
    requires Terminal(py, RawEvents(a), id, k)
    ensures Traced(py, a, id) && 0 <= k < |RawEvents(a)|
  {
    hide Placed, IsOutcome;
  }

  lemma SummaryAgrees(py: Python, row: Row, args: Fields, key: string)
    requires SummaryOk(py, row, args) && Compared(args, key)
    ensures row.Row? && EqualValue(py, Get(row.fields, key), Get(args, key), key)
  {
    hide EqualValue, Compared, Get;
  }

  lemma CsvAgrees(py: Python, a: Artifacts, id: int, i: nat, column: string)
    requires Clean(py, a) && CsvRow(py, a, i, id) && column in a.transferCsv[0] && !IsStage(column)
    ensures id in Transfers(py, a.transfers).value && Transfers(py, a.transfers).value[id].Row?
    ensures EqualValue(py, CsvCell(a, i, column), Get(Transfers(py, a.transfers).value[id].fields, column), column)
  {
    hide HeadClean, Group, Transfers, RawClean, EventsClean, FlagsClean, StageCsvClean, RowId, ById, NoRepeats, REQUIRED_COLUMNS, IdsRead, IdsDiffer, EqualValue, IsStage, Get, Cell;
    var csv, transfers := a.transferCsv, Transfers(py, a.transfers).value;
    var header, rows := csv[0], csv[1..];
    assert rows[i] == csv[i + 1];
    ByIdAt(py, header, rows, i);
    assert RowOk(py, header, rows[i], transfers[id]);
    var j :| 0 <= j < |header| && header[j] == column;
    assert CellOk(py, header[j], Cell(header, rows[i], header[j]).value, transfers[id]);
  }

  /** A clean report does not promise a complete trace: a negative count of
      dropped events passes as long as the trace is declared incomplete. */
  lemma CleanNeedNotBeComplete(py: Python, a: Artifacts)
    requires Clean(py, a)
    ensures a.complete <==> ToInt(py, a.dropped) == Number(0)
    ensures Clean(py, a.(dropped := Int(-1), complete := false))
  {
    hide Group, Transfers, RawClean, EventsClean, StageCsvClean, TransferCsvClean, RowsAre;
  }

  // ---------------------------------------------------------------- what a clean report cannot see

  /** The id under which a row of the summary is filed. */
  predicate FiledAs(py: Python, row: Row, id: int) {
    row.Row? && Get(row.fields, "event_id") != Missing && ToInt(py, Get(row.fields, "event_id")) == Number(id)
  }

  ghost predicate Later(py: Python, rows: seq<Row>, id: int) { exists i :: 0 <= i < |rows| && FiledAs(py, rows[i], id) }

  /** A row counts only if no later row is filed under its id. */
  lemma {:induction false} RowReplaced(py: Python, pre: seq<Row>, row: Row, post: seq<Row>, id: int)
    requires FiledAs(py, row, id)
    ensures Transfers(py, pre + [row] + post) ==
            match Transfers(py, pre + post)
            case None => None
            case Some(m) => Some(if Later(py, post, id) then m else m[id := row])
  {
    hide ToInt, Get, Later;
    NothingLater(py, id);
    if post == [] {
      assert pre + [row] + post == pre + [row] && pre + post == pre;
      assert (pre + [row])[..|pre|] == pre;
    } else {
      var n := |post| - 1;
      var front, last := post[..n], post[n];
      RowReplaced(py, pre, row, front, id);
      var long, short := pre + [row] + post, pre + post;
      assert long[..|long| - 1] == pre + [row] + front && short[..|short| - 1] == pre + front;
      LaterSnoc(py, front, last, id);
      assert post == front + [last];
      hide File, FiledAs;
      match Transfers(py, pre + front)
      case None =>
      case Some(m) => FileShadow(py, m, id, row, last);
    }
  }

  lemma NothingLater(py: Python, id: int)
    ensures !Later(py, [], id)
  {
  }

  lemma FileShadow(py: Python, m: map<int, Row>, id: int, row: Row, last: Row)
    ensures File(py, m[id := row], last) ==
            match File(py, m, last)
            case None => None
            case Some(k) => Some(if FiledAs(py, last, id) then k else k[id := row])
  {
    hide ToInt, Get;
    match File(py, m, last)
    case None =>
    case Some(k) =>
      if FiledAs(py, last, id) {
        assert m[id := row][id := last] == m[id := last];
      } else if last.Row? && Get(last.fields, "event_id") != Missing {
        var n := ToInt(py, Get(last.fields, "event_id")).n;
        assert m[id := row][n := last] == m[n := last][id := row];
      }
  }

  lemma LaterSnoc(py: Python, front: seq<Row>, last: Row, id: int)
    ensures Later(py, front + [last], id) <==> Later(py, front, id) || FiledAs(py, last, id)
  {
    hide FiledAs;
    var all := front + [last];
    assert all[|front|] == last && forall i :: 0 <= i < |front| ==> all[i] == front[i];
  }

  /** A summary row that a later row of the same id shadows is never looked at:
      whatever it says, the verdict is the same. */
  lemma ShadowedRowUnseen(py: Python, a: Artifacts, pre: seq<Row>, row: Row, post: seq<Row>, id: int)
    requires a.transfers == pre + post && FiledAs(py, row, id) && Later(py, post, id)
    ensures Clean(py, a.(transfers := pre + [row] + post)) <==> Clean(py, a)
  {
    hide Group, Transfers, RawClean, EventsClean, StageCsvClean, TransferCsvClean, RowsAre, FlagsClean, HeadClean, FiledAs, Later;
    RowReplaced(py, pre, row, post, id);
    SameHead(py, a, a.(transfers := pre + [row] + post));
  }

  lemma SameHead(py: Python, a: Artifacts, b: Artifacts)
    requires b == a.(transfers := b.transfers)
    ensures HeadClean(a) <==> HeadClean(b)
    ensures FlagsClean(py, a) <==> FlagsClean(py, b)
  {
  }
}
