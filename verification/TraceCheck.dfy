/** The checker of a trace artifact: raw events, summary and CSV must tell the
    same story. */
module TraceCheck {
  import opened Values
  import opened TraceValues

  /** One element of `traceEvents`; `args` is None when it is not an object. */
  datatype Raw = NotObject | Event(ts: Val, ph: Val, dur: Val, name: Val, args: Option<Fields>)

  /** One element of the summary's `transfers`; `stages` is None when
      `stage_durations_us` is not an object. */
  datatype Row = NotRow | Row(fields: Fields, stages: Option<Fields>)

  datatype Fault =
    | RawEvent(index: nat) | TimeOrder | Context(id: int) | Stage(id: int) | OutcomeCount(id: int)
    | Outcome(id: int) | NoSummary(id: int) | SummaryMismatch(id: int) | PollMismatch(id: int)
    | EmptyCsv | Columns | RowWidth(row: nat) | RowCount | BadId(row: nat) | SameId(row: nat) | CsvIds | CsvMismatch(id: int)
    | MissingArtifact | Schema | NotAList | EventCount | IdSets | IncompleteIds | DroppedEvents | CompleteFlag

  const TRANSFER_KEYS: seq<string> := [
    "plan_id", "src_object_id", "dst_object_id", "src_medium", "dst_medium", "direction", "operation",
    "requested_mode", "bytes", "planned_path", "planned_engine"]

  const COMMON_KEYS: seq<string> := ["trace_schema_version", "event_id"] + TRANSFER_KEYS

  const OUTCOME_KEYS: seq<string> := [
    "status", "bytes_done", "actual_path", "actual_engine", "actual_latency_us", "actual_bandwidth_gib_s",
    "fallback_used", "fallback_reason", "error_code", "error_message"]

  const REQUIRED_COLUMNS: seq<string> :=
    ["event_id", "schema_version"] + TRANSFER_KEYS + OUTCOME_KEYS + [
      "channel_device_id", "stage_queue_wait_us", "stage_worker_execute_us", "stage_cpu_copy_us",
      "stage_acl_submit_us", "stage_acl_wait_us", "stage_ssd_io_us", "stage_relay_stage_us",
      "stage_direct_setup_us", "sum_of_span_durations_us", "span_minus_actual_latency_us",
      "outcome_count", "context_consistent"]

  const STAGE_CSV_HEADER: seq<string> := ["category", "name", "count", "total_us", "avg_us", "max_us", "bytes"]

  // ---------------------------------------------------------------- raw events

  predicate Negative(f: Float) { f == NegInf || (f.Finite? && f.r < 0.0) }

  predicate GoodNumber(py: Python, v: Val) { ToFloat(py, v).Some? && !Negative(ToFloat(py, v).value) }

  predicate IsSpan(e: Raw) { e.Event? && e.ph == Text("X") }

  predicate GoodRaw(py: Python, e: Raw) {
    && e.Event? && GoodNumber(py, e.ts)
    && (IsSpan(e) ==> GoodNumber(py, e.dur))
    && e.args.Some?
  }

  function EventId(py: Python, args: Fields): Conversion {
    if "event_id" in args then ToInt(py, args["event_id"]) else Number(0)
  }

  /** The event id under which a raw event is grouped. */
  function Placed(py: Python, e: Raw): Option<int> {
    if e.Event? && ToFloat(py, e.ts).Some? && e.args.Some? then
      match EventId(py, e.args.value)
      case Number(n) => if n > 0 then Some(n) else None
      case _ => None
    else None
  }

  predicate Raises(py: Python, e: Raw) {
    e.Event? && ToFloat(py, e.ts).Some? && e.args.Some? && EventId(py, e.args.value).Overflow?
  }

  function Times(py: Python, events: seq<Raw>): seq<Float> {
    if events == [] then []
    else
      var e, ts := events[|events| - 1], Times(py, events[..|events| - 1]);
      if e.Event? && ToFloat(py, e.ts).Some? then ts + [ToFloat(py, e.ts).value] else ts
  }

  function Place(grouped: map<int, seq<Raw>>, id: int, e: Raw): map<int, seq<Raw>> {
    grouped[id := (if id in grouped then grouped[id] else []) + [e]]
  }

  function Group(py: Python, events: seq<Raw>): map<int, seq<Raw>> {
    if events == [] then map[]
    else
      var e, g := events[|events| - 1], Group(py, events[..|events| - 1]);
      match Placed(py, e)
      case None => g
      case Some(id) => Place(g, id, e)
  }

  datatype Scan = Scan(faults: seq<Fault>, times: seq<Float>, grouped: map<int, seq<Raw>>)

  method ScanRaw(py: Python, events: seq<Raw>) returns (r: Option<Scan>)
    ensures r.Some? <==> forall i :: 0 <= i < |events| ==> !Raises(py, events[i])
    ensures r.Some? ==>
              && r.value.times == Times(py, events) && r.value.grouped == Group(py, events)
              && (r.value.faults == [] <==> forall i :: 0 <= i < |events| ==> GoodRaw(py, events[i]))
  {
    hide ToFloat, EventId, Negative, Place, IsSpan;
    var faults: seq<Fault>, times: seq<Float>, grouped: map<int, seq<Raw>> := [], [], map[];
    for i := 0 to |events|
      invariant forall j :: 0 <= j < i ==> !Raises(py, events[j])
      invariant times == Times(py, events[..i]) && grouped == Group(py, events[..i])
      invariant faults == [] <==> forall j :: 0 <= j < i ==> GoodRaw(py, events[j])
    {
      assert events[..i + 1][..i] == events[..i];
      var e := events[i];
      if e.NotObject? || ToFloat(py, e.ts).None? {
        faults := faults + [RawEvent(i)];
        continue;
      }
      var time := ToFloat(py, e.ts).value;
      if Negative(time) { faults := faults + [RawEvent(i)]; }
      times := times + [time];
      if IsSpan(e) && !GoodNumber(py, e.dur) { faults := faults + [RawEvent(i)]; }
      if e.args.None? {
        faults := faults + [RawEvent(i)];
        continue;
      }
      match EventId(py, e.args.value)
      case Overflow => return None;
      case BadValue =>
      case Number(n) => if n > 0 { grouped := Place(grouped, n, e); }
    }
    assert events[..|events|] == events;
    return Some(Scan(faults, times, grouped));
  }

  /** The raw events of one id, in order. */
  function Select(py: Python, events: seq<Raw>, id: int): seq<Raw> {
    if events == [] then []
    else
      var e, es := events[|events| - 1], Select(py, events[..|events| - 1], id);
      if Placed(py, e) == Some(id) then es + [e] else es
  }

  /** Grouping is selection by id, and its keys are the ids that occur. */
  lemma {:induction false} GroupExact(py: Python, events: seq<Raw>, id: int)
    ensures id in Group(py, events) <==> exists i :: 0 <= i < |events| && Placed(py, events[i]) == Some(id)
    ensures Select(py, events, id) == if id in Group(py, events) then Group(py, events)[id] else []
  {
    hide Placed;
    if events != [] {
      var n := |events| - 1;
      GroupExact(py, events[..n], id);
      if Placed(py, events[n]) == Some(id) {
      } else if id in Group(py, events) {
        var i :| 0 <= i < n && Placed(py, events[..n][i]) == Some(id);
        assert Placed(py, events[i]) == Some(id);
      } else {
        assert forall i :: 0 <= i < n ==> events[i] == events[..n][i];
      }
    }
  }

  // ---------------------------------------------------------------- the summary's transfers

  /** The rows by event id, a later row replacing an earlier one; None where
      an id is no integer. */
  function Transfers(py: Python, rows: seq<Row>): Option<map<int, Row>> {
    if rows == [] then Some(map[])
    else
      match Transfers(py, rows[..|rows| - 1])
      case None => None
      case Some(m) => File(py, m, rows[|rows| - 1])
  }

  function File(py: Python, m: map<int, Row>, row: Row): Option<map<int, Row>> {
    if row.NotRow? || Get(row.fields, "event_id") == Missing then Some(m)
    else
      match ToInt(py, Get(row.fields, "event_id"))
      case Number(n) => Some(m[n := row])
      case _ => None
  }

  // ---------------------------------------------------------------- required roles

  datatype Role =
    | Final | QueueWait | WorkerExecute | LaneAcquire | LaneBusy | CpuCopy | AclSubmit | AclWait
    | SsdIo | RelayStage | DirectSetup | AclCopy

  function Name(role: Role): string {
    match role
    case Final => "outcome"
    case QueueWait => "queue_wait"
    case WorkerExecute => "worker_execute"
    case LaneAcquire => "lane_acquire"
    case LaneBusy => "lane_busy"
    case CpuCopy => "cpu_copy"
    case AclSubmit => "acl_submit"
    case AclWait => "acl_wait"
    case SsdIo => "ssd_io"
    case RelayStage => "relay_stage"
    case DirectSetup => "direct_setup"
    case AclCopy => "acl_copy"
  }

  predicate OccursAt(s: string, t: string, i: nat) { i + |t| <= |s| && s[i..i + |t|] == t }

  predicate Contains(s: string, t: string) { exists i :: 0 <= i <= |s| && OccursAt(s, t, i) }

  predicate DirectRef(path: string) { path == "direct_ref" }
  predicate Channel(path: string) { path == "memfd_pinned_hbm_channel" }
  predicate Mapped(path: string) { Contains(path, "direct_mmap") || Contains(path, "direct_thp") }
  predicate SsdDdr(path: string) { path == "ssd_to_ddr" || path == "ddr_to_ssd" }
  predicate ViaDdr(path: string) { Contains(path, "via_ddr") }
  predicate SsdHbm(path: string) { path == "ssd_to_hbm_direct" || path == "hbm_to_ssd_direct" }
  predicate HbmHbm(path: string) { path == "hbm_to_hbm" }
  predicate DdrDdr(path: string) { path == "ddr_to_ddr" }

  function RequiredRoles(completed: bool, planned: string, actual: string): set<Role> {
    if !completed || DirectRef(planned) || DirectRef(actual) then {Final}
    else
      {Final, QueueWait, WorkerExecute} +
      (if Channel(actual) then {LaneAcquire, LaneBusy, CpuCopy, AclSubmit, AclWait}
       else if Mapped(actual) then {LaneAcquire, LaneBusy, AclSubmit, AclWait}
       else if SsdDdr(actual) then {SsdIo}
       else if ViaDdr(actual) then {SsdIo, RelayStage} + (if SsdHbm(planned) then {DirectSetup} else {})
       else if SsdHbm(actual) then {DirectSetup, AclWait}
       else if HbmHbm(actual) then {AclCopy}
       else if DdrDdr(actual) then {CpuCopy}
       else {})
  }

  lemma Lacks(s: string, t: string, ch: char)
    requires ch in t && ch !in s
    ensures !Contains(s, t)
  {
    var k :| 0 <= k < |t| && t[k] == ch;
    forall i | 0 <= i <= |s| ensures !OccursAt(s, t, i) {
      if i + |t| <= |s| { assert s[i + k] == s[i..i + |t|][k]; }
    }
  }

  /** A path spelled out in full is never one that is told by a fragment. */
  lemma ExactPaths(path: string)
    requires 'p' !in path && 'v' !in path
    ensures !Mapped(path) && !ViaDdr(path)
  {
    hide Contains;
    Lacks(path, "direct_mmap", 'p');
    Lacks(path, "direct_thp", 'p');
    Lacks(path, "via_ddr", 'v');
  }

  lemma ChannelPath(path: string)
    requires Channel(path)
    ensures !ViaDdr(path) && !Mapped(path)
  {
    hide Contains;
    Lacks(path, "via_ddr", 'v');
    Lacks(path, "direct_mmap", 'r');
    Lacks(path, "direct_thp", 'r');
  }

  lemma PathsDiffer(path: string)
    ensures !(SsdDdr(path) && SsdHbm(path)) && !(SsdDdr(path) && HbmHbm(path)) && !(SsdDdr(path) && DdrDdr(path))
    ensures !(SsdHbm(path) && HbmHbm(path)) && !(SsdHbm(path) && DdrDdr(path)) && !(HbmHbm(path) && DdrDdr(path))
    ensures SsdDdr(path) || SsdHbm(path) || HbmHbm(path) || DdrDdr(path) ==>
              !Mapped(path) && !ViaDdr(path) && !Channel(path)
    ensures Channel(path) ==> !ViaDdr(path) && !Mapped(path)
  {
    hide Mapped, ViaDdr;
    if Channel(path) { ChannelPath(path); }
    if SsdDdr(path) || SsdHbm(path) || HbmHbm(path) || DdrDdr(path) { ExactPaths(path); }
  }

  /** Which transfers need which stage: the chain of path tests, read role by role. */
  lemma RoleTable(completed: bool, planned: string, actual: string)
    ensures
      var roles := RequiredRoles(completed, planned, actual);
      var moved := completed && !DirectRef(planned) && !DirectRef(actual);
      && Final in roles
      && (QueueWait in roles <==> moved) && (WorkerExecute in roles <==> moved)
      && (LaneAcquire in roles <==> moved && (Channel(actual) || Mapped(actual)))
      && (LaneBusy in roles <==> LaneAcquire in roles) && (AclSubmit in roles <==> LaneAcquire in roles)
      && (AclWait in roles <==> moved && (Channel(actual) || Mapped(actual) || SsdHbm(actual)))
      && (CpuCopy in roles <==> moved && (Channel(actual) || DdrDdr(actual)))
      && (SsdIo in roles <==> moved && !Mapped(actual) && (SsdDdr(actual) || ViaDdr(actual)))
      && (RelayStage in roles <==> moved && !Mapped(actual) && ViaDdr(actual))
      && (DirectSetup in roles <==>
          moved && (SsdHbm(actual) || (!Mapped(actual) && ViaDdr(actual) && SsdHbm(planned))))
      && (AclCopy in roles <==> moved && HbmHbm(actual))
  {
    hide DirectRef, Channel, Mapped, SsdDdr, ViaDdr, SsdHbm, HbmHbm, DdrDdr;
    PathsDiffer(actual);
  }

  // ---------------------------------------------------------------- one event

  function Args(e: Raw): Fields { if e.Event? && e.args.Some? then e.args.value else map[] }

  function Arg(e: Raw, key: string): Val { Get(Args(e), key) }

  predicate IsOutcome(e: Raw) { e.Event? && e.name == Text("transfer.outcome") }

  function Outcomes(events: seq<Raw>): seq<Raw> {
    if events == [] then []
    else
      var e, os := events[|events| - 1], Outcomes(events[..|events| - 1]);
      if IsOutcome(e) then os + [e] else os
  }

  /** The distinct printed values of one key over the events that have it. */
  function Printed(py: Python, events: seq<Raw>, key: string): set<string> {
    if events == [] then {}
    else
      var e, vs := events[|events| - 1], Printed(py, events[..|events| - 1], key);
      if key in Args(e) then vs + {Spelled(py, Args(e)[key])} else vs
  }

  function Observed(py: Python, events: seq<Raw>): set<string> {
    if events == [] then {}
    else
      var e, rs := events[|events| - 1], Observed(py, events[..|events| - 1]);
      if Truthy(Arg(e, "stage_role")) then rs + {Spelled(py, Arg(e, "stage_role"))} else rs
  }

  predicate StageOk(e: Raw) {
    Arg(e, "trace_schema_version") == Text("2") && Truthy(Arg(e, "stage_role"))
  }

  function PathOf(py: Python, args: Fields, key: string): string {
    if key in args then Spelled(py, args[key]) else ""
  }

  function Required(py: Python, args: Fields): set<Role> {
    RequiredRoles(Get(args, "status") == Text("complete"), PathOf(py, args, "planned_path"), PathOf(py, args, "actual_path"))
  }

  predicate IsSsdHbm(v: Val) { v.Text? && SsdHbm(v.s) }

  /** A direct attempt between SSD and HBM is labelled logical. */
  predicate LabelOk(args: Fields) {
    Truthy(Get(args, "direct_candidate")) || IsSsdHbm(Get(args, "actual_path")) ==>
      Get(args, "direct_kind") == Text("logical")
  }

  /** A planned direct transfer that ran as a relay says so, with a reason. */
  predicate FallbackOk(py: Python, args: Fields) {
    IsSsdHbm(Get(args, "planned_path")) && ViaDdr(PathOf(py, args, "actual_path")) ==>
      Get(args, "fallback_used") == Text("true") && Truthy(Get(args, "fallback_reason"))
  }

  predicate RolesCovered(py: Python, args: Fields, events: seq<Raw>) {
    forall role :: role in Required(py, args) ==> Name(role) in Observed(py, events)
  }

  predicate OutcomeOk(py: Python, outcome: Raw, events: seq<Raw>) {
    && outcome.Event? && outcome.ph == Text("i")
    && (forall key :: key in OUTCOME_KEYS ==> key in Args(outcome))
    && RolesCovered(py, Args(outcome), events)
    && LabelOk(Args(outcome)) && FallbackOk(py, Args(outcome))
  }

  const UNCOMPARED: set<string> := {"trace_schema_version", "event_id", "stage_role"}

  predicate Compared(args: Fields, key: string) { key in TRANSFER_KEYS || (key in args && key !in UNCOMPARED) }

  ghost predicate SummaryOk(py: Python, row: Row, args: Fields) {
    row.Row? && forall key :: Compared(args, key) ==> EqualValue(py, Get(row.fields, key), Get(args, key), key)
  }

  function PollKey(key: string): string { if key == "event_status" then "status" else key }

  predicate PollFieldOk(py: Python, poll: Fields, args: Fields, key: string)
    requires key in poll
  {
    PollKey(key) in args ==> EqualValue(py, args[PollKey(key)], poll[key], PollKey(key))
  }

  ghost predicate PollOk(py: Python, poll: Fields, args: Fields) {
    forall key :: key in poll ==> PollFieldOk(py, poll, args, key)
  }

  ghost predicate ContextOk(py: Python, events: seq<Raw>) {
    forall key :: key in COMMON_KEYS ==> |Printed(py, events, key)| == 1
  }

  ghost predicate EventClean(py: Python, events: seq<Raw>, row: Option<Row>, poll: Option<Fields>) {
    && ContextOk(py, events)
    && (forall i :: 0 <= i < |events| ==> StageOk(events[i]))
    && |Outcomes(events)| == 1
    && OutcomeOk(py, Outcomes(events)[0], events)
    && row.Some? && SummaryOk(py, row.value, Args(Outcomes(events)[0]))
    && (poll.Some? ==> PollOk(py, poll.value, Args(Outcomes(events)[0])))
  }

  method CheckContext(py: Python, id: int, events: seq<Raw>) returns (faults: seq<Fault>)
    ensures faults == [] <==> ContextOk(py, events)
  {
    hide Printed, COMMON_KEYS;
    faults := [];
    for i := 0 to |COMMON_KEYS|
      invariant faults == [] <==> forall j :: 0 <= j < i ==> |Printed(py, events, COMMON_KEYS[j])| == 1
    {
      if |Printed(py, events, COMMON_KEYS[i])| != 1 { faults := [Context(id)]; }
    }
    assert forall key :: key in COMMON_KEYS <==> exists j :: 0 <= j < |COMMON_KEYS| && COMMON_KEYS[j] == key;
  }

  method CheckStages(id: int, events: seq<Raw>) returns (faults: seq<Fault>)
    ensures faults == [] <==> forall i :: 0 <= i < |events| ==> StageOk(events[i])
  {
    hide StageOk;
    faults := [];
    for i := 0 to |events|
      invariant faults == [] <==> forall j :: 0 <= j < i ==> StageOk(events[j])
    {
      if !StageOk(events[i]) { faults := faults + [Stage(id)]; }
    }
  }

  method CheckSummary(py: Python, id: int, row: Row, args: Fields) returns (faults: seq<Fault>)
    requires row.Row?
    ensures faults == [] <==> SummaryOk(py, row, args)
  {
    hide EqualValue, TRANSFER_KEYS, UNCOMPARED, Get;
    faults := [];
    ghost var keys := (set key | key in TRANSFER_KEYS) + (args.Keys - UNCOMPARED);
    var rest := (set key | key in TRANSFER_KEYS) + (args.Keys - UNCOMPARED);
    while rest != {}
      invariant rest <= keys
      invariant faults == [] <==> forall key :: key in keys - rest ==> EqualValue(py, Get(row.fields, key), Get(args, key), key)
    {
      var key :| key in rest;
      if !EqualValue(py, Get(row.fields, key), Get(args, key), key) { faults := faults + [SummaryMismatch(id)]; }
      rest := rest - {key};
    }
    assert forall key :: key in keys <==> Compared(args, key);
  }

  method CheckPoll(py: Python, id: int, poll: Fields, args: Fields) returns (faults: seq<Fault>)
    ensures faults == [] <==> PollOk(py, poll, args)
  {
    hide PollFieldOk;
    faults := [];
    var rest := poll.Keys;
    while rest != {}
      invariant rest <= poll.Keys
      invariant faults == [] <==> forall key :: key in poll.Keys - rest ==> PollFieldOk(py, poll, args, key)
    {
      var key :| key in rest;
      if !PollFieldOk(py, poll, args, key) { faults := faults + [PollMismatch(id)]; }
      rest := rest - {key};
    }
  }

  method CheckEvent(py: Python, id: int, events: seq<Raw>, row: Option<Row>, poll: Option<Fields>)
    returns (faults: seq<Fault>)
    requires row.Some? ==> row.value.Row?
    ensures faults == [] <==> EventClean(py, events, row, poll)
  {
    hide ContextOk, StageOk, OutcomeOk, SummaryOk, PollOk, Outcomes, Args;
    var context := CheckContext(py, id, events);
    var stages := CheckStages(id, events);
    faults := context + stages;
    var outcomes := Outcomes(events);
    if |outcomes| != 1 {
      faults := faults + [OutcomeCount(id)];
      if row.None? { faults := faults + [NoSummary(id)]; }
      return;
    }
    if !OutcomeOk(py, outcomes[0], events) { faults := faults + [Outcome(id)]; }
    var args := Args(outcomes[0]);
    if row.None? {
      faults := faults + [NoSummary(id)];
    } else {
      var summary := CheckSummary(py, id, row.value, args);
      faults := faults + summary;
    }
    if poll.Some? {
      var polled := CheckPoll(py, id, poll.value, args);
      faults := faults + polled;
    }
  }
}
