/** The loosely typed values that the trace checker compares, and how it
    compares them. */
module TraceValues {
  import opened Values

  datatype Float = Finite(r: real) | PosInf | NegInf | NaN

  /** A value taken from JSON or from a CSV cell; `Missing` is None and `Other` a
      list or an object. */
  datatype Val = Missing | Bool(b: bool) | Int(n: int) | Real(f: Float) | Text(s: string) | Other(nonempty: bool)

  type Fields = map<string, Val>

  /** Python's conversions of text, and its printing of values. */
  datatype Python = Python(
    parseFloat: string -> Option<Float>, parseInt: string -> Option<int>,
    show: Val -> string, lower: string -> string, inOrder: seq<Float> -> bool)

  function Get(fields: Fields, key: string): Val { if key in fields then fields[key] else Missing }

  /** `float(v)`, None where TypeError or ValueError is raised. */
  function ToFloat(py: Python, v: Val): Option<Float> {
    match v
    case Bool(b) => Some(Finite(if b then 1.0 else 0.0))
    case Int(n) => Some(Finite(n as real))
    case Real(f) => Some(f)
    case Text(s) => py.parseFloat(s)
    case _ => None
  }

  function Truncate(r: real): int { if r >= 0.0 then r.Floor else -((-r).Floor) }

  /** What `int(v)` does: a number, a TypeError or ValueError, or an OverflowError. */
  datatype Conversion = Number(n: int) | BadValue | Overflow

  function ToInt(py: Python, v: Val): Conversion {
    match v
    case Bool(b) => Number(if b then 1 else 0)
    case Int(n) => Number(n)
    case Real(Finite(r)) => Number(Truncate(r))
    case Real(NaN) => BadValue
    case Real(_) => Overflow
    case Text(s) => (match py.parseInt(s) case Some(n) => Number(n) case None => BadValue)
    case _ => BadValue
  }

  predicate Truthy(v: Val) {
    match v
    case Missing => false
    case Bool(b) => b
    case Int(n) => n != 0
    case Real(f) => f != Finite(0.0)
    case Text(s) => s != []
    case Other(nonempty) => nonempty
  }

  /** Python's `v == n` for an integer n. */
  predicate EqualsInt(v: Val, n: int) {
    || v == Int(n)
    || v == Real(Finite(n as real))
    || (v.Bool? && n == (if v.b then 1 else 0))
  }

  const TRANSFER_NUMBERS: set<string> := {
    "schema_version", "plan_id", "src_object_id", "dst_object_id", "bytes", "bytes_done", "actual_latency_us",
    "actual_bandwidth_gib_s", "sum_of_span_durations_us", "span_minus_actual_latency_us", "outcome_count"}

  const CHANNEL_NUMBERS: set<string> := {
    "channel_lane_id", "channel_device_id", "channel_chunk_bytes", "channel_chunk_count",
    "channel_pinned_footprint_bytes", "channel_chunks_transferred", "channel_queue_wait_us",
    "channel_worker_execute_us", "channel_lane_wait_us", "channel_cpu_copy_us", "channel_acl_copy_us",
    "channel_acl_submit_us", "channel_acl_wait_us", "channel_wall_us", "channel_overlap_ratio",
    "channel_stream_create_count", "channel_event_reuse_count", "channel_event_record_count",
    "channel_event_wait_count"}

  const STORAGE_NUMBERS: set<string> := {
    "ssd_io_submit_us", "ssd_io_wait_us", "ssd_io_bytes", "ssd_io_bandwidth_gib_s", "ssd_read_bytes",
    "ssd_write_bytes", "relay_stage_count", "relay_ddr_hbm_us", "relay_total_us"}

  const DIRECT_NUMBERS: set<string> := {
    "direct_setup_us", "direct_register_us", "direct_fadvise_us", "direct_readahead_us",
    "direct_madvise_hugepage_us", "direct_madvise_willneed_us", "direct_madvise_populate_us",
    "direct_pretouch_us", "direct_mlock_us", "direct_acl_us", "direct_total_us"}

  const NUMERIC_KEYS: set<string> := TRANSFER_NUMBERS + CHANNEL_NUMBERS + STORAGE_NUMBERS + DIRECT_NUMBERS

  const STAGE_PREFIX: string := "stage_"
  const STAGE_SUFFIX: string := "_us"

  predicate EndsWith(s: string, t: string) { |t| <= |s| && s[|s| - |t|..] == t }

  predicate IsStage(key: string) { STAGE_PREFIX <= key && EndsWith(key, STAGE_SUFFIX) }

  predicate IsNumeric(key: string) { key in NUMERIC_KEYS || IsStage(key) }

  function Abs(r: real): real { if r < 0.0 then -r else r }

  function Max(a: real, b: real): real { if a < b then b else a }

  function Tolerance(r: real): real { Max(0.01, Abs(r) / 10000.0) }

  /** Both values missing, or two finite numbers within the bound. */
  predicate Within(py: Python, left: Val, right: Val, bound: real -> real) {
    match (ToFloat(py, left), ToFloat(py, right))
    case (Some(a), Some(b)) => a.Finite? && b.Finite? && Abs(a.r - b.r) <= bound(b.r)
    case _ => left == Missing && right == Missing
  }

  predicate EqualValue(py: Python, left: Val, right: Val, key: string) {
    if IsNumeric(key) then Within(py, left, right, Tolerance)
    else if left.Bool? || right.Bool? then
      py.lower(Spelled(py, left)) == py.lower(Spelled(py, right))
    else Shown(py, left) == Shown(py, right)
  }

  /** `str(v)`. */
  function Spelled(py: Python, v: Val): string { if v.Text? then v.s else py.show(v) }

  function Shown(py: Python, v: Val): string { if v.Missing? then "" else Spelled(py, v) }

  /** How far apart the two ends of a two-step comparison can be. */
  function Composed(r: real): real { Tolerance(r) + Max(0.01, (Abs(r) + Tolerance(r)) / 10000.0) }

  lemma ToleranceGrows(s: real, o: real)
    requires Abs(s) <= Abs(o) + Tolerance(o)
    ensures Tolerance(s) <= Max(0.01, (Abs(o) + Tolerance(o)) / 10000.0)
  {
  }

  /** Two numeric comparisons in a row compose, with the composed tolerance. */
  lemma EqualComposes(py: Python, csv: Val, summary: Val, outcome: Val, key: string)
    requires IsNumeric(key)
    requires EqualValue(py, csv, summary, key) && EqualValue(py, summary, outcome, key)
    ensures Within(py, csv, outcome, Composed)
  {
    hide IsNumeric, ToFloat;
    MissingIsNoNumber(py);
    if ToFloat(py, csv).Some? && ToFloat(py, summary).Some? && ToFloat(py, outcome).Some? {
      WithinComposes(ToFloat(py, csv).value.r, ToFloat(py, summary).value.r, ToFloat(py, outcome).value.r);
    }
  }

  lemma MissingIsNoNumber(py: Python)
    ensures ToFloat(py, Missing) == None
  {
  }

  lemma WithinComposes(c: real, s: real, o: real)
    requires Abs(c - s) <= Tolerance(s) && Abs(s - o) <= Tolerance(o)
    ensures Abs(c - o) <= Composed(o)
  {
    ToleranceGrows(s, o);
    hide Tolerance, Max;
  }

  /** The composed bound is needed: two steps can drift further than one allows. */
  lemma OneToleranceIsNotEnough()
    ensures forall py: Python, key | IsNumeric(key) ::
              EqualValue(py, Real(Finite(0.02)), Real(Finite(0.01)), key) &&
              EqualValue(py, Real(Finite(0.01)), Real(Finite(0.0)), key) &&
              !EqualValue(py, Real(Finite(0.02)), Real(Finite(0.0)), key)
  {
    hide IsNumeric;
  }

  /** One numeric comparison, in plain numbers: the two differ by at most a
      hundredth, or by at most a ten-thousandth of the right one. */
  lemma NumbersEqual(py: Python, left: Val, right: Val, key: string)
    requires IsNumeric(key) && ToFloat(py, left).Some? && ToFloat(py, right).Some?
    ensures EqualValue(py, left, right, key) <==>
            match (ToFloat(py, left).value, ToFloat(py, right).value)
            case (Finite(l), Finite(r)) =>
              || -0.01 <= l - r <= 0.01
              || (10000.0 * (l - r) <= r && 10000.0 * (r - l) <= r) || (10000.0 * (l - r) <= -r && 10000.0 * (r - l) <= -r)
            case _ => false
  {
    hide IsNumeric, ToFloat;
  }

  /** Numbers, truth values and texts as numbers. */
  lemma WholeNumbersEqual(py: Python, m: int, n: int, b: bool, s: string, key: string)
    requires IsNumeric(key) && py.parseFloat(s) == Some(Finite(m as real))
    ensures EqualValue(py, Int(m), Int(n), key) <==> m == n || (10000 * (m - n) <= n && 10000 * (n - m) <= n) || (10000 * (m - n) <= -n && 10000 * (n - m) <= -n)
    ensures EqualValue(py, Text(s), Int(n), key) <==> EqualValue(py, Int(m), Int(n), key)
    ensures EqualValue(py, Val.Bool(b), Int(n), key) <==> EqualValue(py, Int(if b then 1 else 0), Int(n), key)
    ensures !EqualValue(py, Missing, Int(n), key) && EqualValue(py, Missing, Missing, key)
  {
    hide IsNumeric, EqualValue;
    NumbersEqual(py, Int(m), Int(n), key);
    NumbersEqual(py, Text(s), Int(n), key);
    NumbersEqual(py, Val.Bool(b), Int(n), key);
    NumbersEqual(py, Int(if b then 1 else 0), Int(n), key);
    MissingEqual(py, Int(n), key);
    MissingEqual(py, Missing, key);
    Scale(m, n);
  }

  lemma MissingEqual(py: Python, right: Val, key: string)
    requires IsNumeric(key)
    ensures EqualValue(py, Missing, right, key) <==> right == Missing
  {
  }

  lemma Scale(m: int, n: int)
    ensures m as real - n as real == (m - n) as real
    ensures 10000.0 * (m - n) as real == (10000 * (m - n)) as real && 10000.0 * (n - m) as real == (10000 * (n - m)) as real
  {
  }
}
