/** The events a witness records, and how they are printed. */
module Events {
  import opened Values
  import opened Roster
  import opened Text

  /** A reading of /proc for a pid: it is refused if it names another pid. */
  function ReadBirth(pid: int, raw: Option<Birth>): Option<Birth> {
    if raw.Some? && raw.value.pid == pid then raw else None
  }

  /** The identity of the k-th launch of a run. */
  function Launch(run: string, k: nat): string { run + "-" + Decimal(k) }

  lemma LaunchInjective(run: string, k: nat, n: nat)
    requires Launch(run, k) == Launch(run, n)
    ensures k == n
  {
    var p := run + "-";
    assert Launch(run, k)[|p|..] == Decimal(k) && Launch(run, n)[|p|..] == Decimal(n);
    DecimalInjective(k, n);
  }

  datatype Event =
    | Start(broker: Option<string>, parent: Birth, code: string, interpreter: string)
    | Born(launch: string, role: string, birth: Birth, executable: string, argv: string)
    | Ended(launch: string, role: string, birth: Birth, status: int)
    | Absent(dev: int, ino: int)
    | Observed(launch: string, role: string, birth: Birth, dev: int, ino: int, mapped: bool)
    | Sealed(count: nat, allZero: bool)

  function Print(run: string, boot: string, e: Event): Json {
    match e
    case Start(None, parent, code, interpreter) =>
      StartObj(Str("witness_start"), Str(run), Str(boot), BirthValue(parent), Str(code), Str(interpreter))
    case Start(Some(broker), parent, code, interpreter) =>
      BrokerStartObj(Str("witness_start"), Str(run), Str(broker), Str(boot), BirthValue(parent), Str(code), Str(interpreter))
    case Born(launch, role, birth, executable, argv) =>
      ChildBirthObj(Str("child_birth"), Str(run), Str(launch), Str(boot), Str(role), BirthValue(birth),
                    Str(executable), Str(argv), Bool(true))
    case Ended(launch, role, birth, status) =>
      ChildWaitObj(Str("child_wait"), Str(run), Str(launch), Str(boot), Str(role), BirthValue(birth),
                   Num(status), Bool(Normal(status)))
    case Absent(dev, ino) =>
      NoBackingObj(Str("witness_no_backing"), Str(run), Str(boot), Num(dev), Num(ino))
    case Observed(launch, role, birth, dev, ino, mapped) =>
      ObservedObj(Str("child_resource_observed"), Str(run), Str(boot), Str(launch), Str(role), BirthValue(birth),
                  Num(dev), Num(ino), Bool(true), Bool(mapped))
    case Sealed(count, allZero) =>
      SealObj(Str("witness_seal"), Str(run), Num(count), Bool(allZero))
  }

  function Printed(run: string, boot: string, h: seq<Event>): (js: seq<Json>)
    ensures |js| == |h|
    ensures forall i :: 0 <= i < |h| ==> js[i] == Print(run, boot, h[i])
  {
    if h == [] then [] else Printed(run, boot, h[..|h| - 1]) + [Print(run, boot, h[|h| - 1])]
  }

  lemma PrintedSnoc(run: string, boot: string, h: seq<Event>, e: Event)
    ensures Printed(run, boot, h + [e]) == Printed(run, boot, h) + [Print(run, boot, e)]
  {
    assert (h + [e])[..|h|] == h;
  }

  /** The printed journal determines the history. */
  lemma PrintedInjective(run: string, boot: string, g: seq<Event>, h: seq<Event>)
    requires Printed(run, boot, g) == Printed(run, boot, h)
    ensures g == h
  {
    hide Printed;
    forall i | 0 <= i < |g| ensures g[i] == h[i] {
      PrintInjective(run, boot, g[i], h[i]);
    }
  }

  lemma PrintInjective(run: string, boot: string, d: Event, e: Event)
    requires Print(run, boot, d) == Print(run, boot, e)
    ensures d == e
  {
  }

  /** The birth record a JSON object spells out. */
  function BirthRead(v: Json): Option<Birth> {
    match v
    case BirthObj(Num(pid), Num(uid), Num(gid), Num(dev), Num(ino), Num(ticks)) => Some(Birth(pid, uid, gid, dev, ino, ticks))
    case _ => None
  }

  // ---------------------------------------------------------------- reading an event back, member by member

  predicate OfRun(v: Json, run: string, boot: string, kind: string)
    requires !v.Null? && !v.Bool? && !v.Num? && !v.Whole? && !v.Str? && !v.Arr?
  {
    && (v.StartObj? || v.BrokerStartObj? || v.ChildBirthObj? || v.ChildWaitObj? || v.NoBackingObj? || v.ObservedObj?)
    && v.kind == Str(kind) && v.runId == Str(run) && v.bootId == Str(boot)
  }

  /** The event that a JSON object of this run and boot states, each part taken
      from the member of its name. */
  function ReadEvent(run: string, boot: string, v: Json): Option<Event> {
    if v.StartObj? && OfRun(v, run, boot, "witness_start") then
      match (BirthRead(v.witnessBirth), v.code, v.interpreter)
      case (Some(parent), Str(code), Str(interpreter)) => Some(Start(None, parent, code, interpreter))
      case _ => None
    else if v.BrokerStartObj? && OfRun(v, run, boot, "witness_start") then
      match (BirthRead(v.witnessBirth), v.code, v.interpreter, v.broker)
      case (Some(parent), Str(code), Str(interpreter), Str(broker)) => Some(Start(Some(broker), parent, code, interpreter))
      case _ => None
    else if v.ChildBirthObj? && OfRun(v, run, boot, "child_birth") && v.pidfdOpened == Bool(true) then
      match (BirthRead(v.birth), v.launchId, v.role, v.executable, v.argv)
      case (Some(b), Str(launch), Str(role), Str(executable), Str(argv)) => Some(Born(launch, role, b, executable, argv))
      case _ => None
    else if v.ChildWaitObj? && OfRun(v, run, boot, "child_wait") then
      match (BirthRead(v.birth), v.launchId, v.role, v.rawStatus)
      case (Some(b), Str(launch), Str(role), Num(status)) =>
        if v.normalZero == Bool(status % 128 == 0 && status / 256 % 256 == 0) then Some(Ended(launch, role, b, status)) else None
      case _ => None
    else if v.NoBackingObj? && OfRun(v, run, boot, "witness_no_backing") then
      match (v.dev, v.ino)
      case (Num(dev), Num(ino)) => Some(Absent(dev, ino))
      case _ => None
    else if v.ObservedObj? && OfRun(v, run, boot, "child_resource_observed") && v.fdObserved == Bool(true) then
      match (BirthRead(v.birth), v.launchId, v.role, v.dev, v.ino, v.mappingObserved)
      case (Some(b), Str(launch), Str(role), Num(dev), Num(ino), Bool(mapped)) => Some(Observed(launch, role, b, dev, ino, mapped))
      case _ => None
    else if v.SealObj? && v.kind == Str("witness_seal") && v.runId == Str(run) then
      match (v.children, v.allNormalZero)
      case (Num(count), Bool(allZero)) => if count >= 0 then Some(Sealed(count, allZero)) else None
      case _ => None
    else None
  }

  lemma BirthReadsBack(b: Birth)
    ensures BirthRead(BirthValue(b)) == Some(b)
  {
  }

  /** A printed event is read back as itself. */
  lemma EventReadsBack(run: string, boot: string, e: Event)
    ensures ReadEvent(run, boot, Print(run, boot, e)) == Some(e)
  {
    hide BirthRead, BirthValue;
    match e
    case Start(_, parent, _, _) => BirthReadsBack(parent);
    case Born(_, _, b, _, _) => BirthReadsBack(b);
    case Ended(_, _, b, _) => BirthReadsBack(b);
    case Observed(_, _, b, _, _, _) => BirthReadsBack(b);
    case _ =>
  }

  function ReadEvents(run: string, boot: string, vs: seq<Json>): Option<seq<Event>> {
    if vs == [] then Some([])
    else
      match (ReadEvents(run, boot, vs[..|vs| - 1]), ReadEvent(run, boot, vs[|vs| - 1]))
      case (Some(es), Some(e)) => Some(es + [e])
      case _ => None
  }

  /** A printed journal is read back as the history that was printed. */
  lemma {:induction false} HistoryReadsBack(run: string, boot: string, h: seq<Event>)
    ensures ReadEvents(run, boot, Printed(run, boot, h)) == Some(h)
  {
    hide ReadEvent, Print;
    if h != [] {
      var n := |h| - 1;
      HistoryReadsBack(run, boot, h[..n]);
      assert Printed(run, boot, h)[..n] == Printed(run, boot, h[..n]);
      EventReadsBack(run, boot, h[n]);
      assert h == h[..n] + [h[n]];
    }
  }
}
