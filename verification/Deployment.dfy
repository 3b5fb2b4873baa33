/** The deployment witness: it gates its children, releases each gate once,
    waits, records resource observations and finally seals. */
module Deployment {
  import opened Values
  import opened Journal
  import opened EvidenceLogs
  import opened Roster
  import opened Events
  import opened Text
  import opened ChildTable
  import opened DeploymentHistory

  function EvidenceFormat(): Format { Format("uflow-ddr-evidence-head-v1", "uflow-ddr-witness-v2", Zeros(64)) }

  /** What the system does while a child is launched; `None` is a raised
      error, a birth is what one reading of /proc reports. */
  datatype LaunchEnv = LaunchEnv(started: bool, pid: int, first: Option<Birth>, second: Option<Birth>, gone: bool,
                                 executable: Option<string>, argv: string, io: Io)

  /** The started child was read twice as the same birth, did not exit, and
      its executable could be read. */
  predicate Pinned(env: LaunchEnv) {
    && env.started && env.first.Some? && env.first.value.pid == env.pid && env.first == env.second
    && !env.gone && env.executable.Some?
  }

  /** Outcome of polling and reaping a child. */
  datatype WaitEnv = TimedOut | Failed | Reaped(pid: int, status: int, io: Io)

  /** What the outside can see the witness do: one durable append, or the
      release byte sent through a child's gate. */
  datatype Act = Append(event: Event) | Gate(birth: Birth)

  function Recorded(trace: seq<Act>): seq<Event> {
    if trace == [] then []
    else Recorded(trace[..|trace| - 1]) + if trace[|trace| - 1].Append? then [trace[|trace| - 1].event] else []
  }

  predicate BirthAppended(trace: seq<Act>, j: int, b: Birth) {
    0 <= j < |trace| && trace[j].Append? && trace[j].event.Born? && trace[j].event.birth == b
  }

  ghost predicate BirthBefore(trace: seq<Act>, i: int, b: Birth) { exists j :: j < i && BirthAppended(trace, j, b) }

  /** A gate byte is sent only after that child's birth frame is durable. */
  ghost predicate GatesFollowBirths(trace: seq<Act>) {
    forall i :: 0 <= i < |trace| && trace[i].Gate? ==> BirthBefore(trace, i, trace[i].birth)
  }

  predicate GateAt(trace: seq<Act>, i: int, b: Birth) { 0 <= i < |trace| && trace[i] == Gate(b) }

  ghost predicate Released(trace: seq<Act>, b: Birth) { exists i :: GateAt(trace, i, b) }

  ghost predicate GateBefore(trace: seq<Act>, i: int, b: Birth) { exists j :: j < i && GateAt(trace, j, b) }

  /** A wait is recorded only of a child whose gate was released. */
  ghost predicate EndsFollowGates(trace: seq<Act>) {
    forall i :: 0 <= i < |trace| && trace[i].Append? && trace[i].event.Ended? ==> GateBefore(trace, i, trace[i].event.birth)
  }

  ghost predicate SafeTrace(trace: seq<Act>) { GatesFollowBirths(trace) && EndsFollowGates(trace) }

  /** Every child of the table whose gate is no longer held was released. */
  ghost predicate UngatedReleased(trace: seq<Act>, m: map<int, Child>, gates: set<int>) {
    forall p :: p in m && p !in gates ==> Released(trace, m[p].birth)
  }

  lemma TraceSnoc(trace: seq<Act>, a: Act)
    ensures Recorded(trace + [a]) == Recorded(trace) + if a.Append? then [a.event] else []
    ensures forall b :: Released(trace, b) ==> Released(trace + [a], b)
    ensures a.Gate? ==> Released(trace + [a], a.birth)
  {
    var all := trace + [a];
    assert all[..|trace|] == trace && all[|trace|] == a;
    forall b | Released(trace, b) ensures Released(all, b) {
      var i :| GateAt(trace, i, b);
      assert GateAt(all, i, b);
    }
    if a.Gate? { assert GateAt(all, |trace|, a.birth); }
  }

  lemma UngatedNote(trace: seq<Act>, m: map<int, Child>, gates: set<int>, e: Event)
    requires UngatedReleased(trace, m, gates)
    ensures UngatedReleased(trace + [Append(e)], Next(m, e), if e.Born? then gates + {e.birth.pid} else gates)
  {
    hide Released;
    TraceSnoc(trace, Append(e));
  }

  lemma UngatedGate(trace: seq<Act>, m: map<int, Child>, gates: set<int>, p: int)
    requires UngatedReleased(trace, m, gates) && p in m
    ensures UngatedReleased(trace + [Gate(m[p].birth)], m, gates - {p})
  {
    hide Released;
    TraceSnoc(trace, Gate(m[p].birth));
  }

  lemma SafeSnoc(trace: seq<Act>, a: Act)
    requires SafeTrace(trace)
    requires a.Gate? ==> BirthBefore(trace, |trace|, a.birth)
    requires a.Append? && a.event.Ended? ==> Released(trace, a.event.birth)
    ensures SafeTrace(trace + [a])
  {
    var all := trace + [a];
    forall i | 0 <= i < |all| && all[i].Gate? ensures BirthBefore(all, i, all[i].birth) {
      var b := all[i].birth;
      assert i < |trace| ==> trace[i] == all[i];
      var j :| j < i && BirthAppended(trace, j, b);
      assert BirthAppended(all, j, b);
    }
    forall i | 0 <= i < |all| && all[i].Append? && all[i].event.Ended? ensures GateBefore(all, i, all[i].event.birth) {
      var b := all[i].event.birth;
      assert i < |trace| ==> trace[i] == all[i];
      var j :| j < i && GateAt(trace, j, b);
      assert GateAt(all, j, b);
    }
  }

  /** Every child of the table has its birth in the trace. */
  lemma {:induction false} BirthInTrace(trace: seq<Act>, i: int)
    requires 0 <= i < |Recorded(trace)| && Recorded(trace)[i].Born?
    ensures BirthBefore(trace, |trace|, Recorded(trace)[i].birth)
  {
    var n := |trace| - 1;
    var b := Recorded(trace)[i].birth;
    if i < |Recorded(trace[..n])| {
      BirthInTrace(trace[..n], i);
      var j :| j < n && BirthAppended(trace[..n], j, b);
      assert BirthAppended(trace, j, b);
    } else {
      assert BirthAppended(trace, n, b);
    }
  }

  lemma ChildInTrace(run: string, trace: seq<Act>, pid: int)
    requires Legal(run, Recorded(trace)) && pid in Replay(Recorded(trace))
    ensures BirthBefore(trace, |trace|, Replay(Recorded(trace))[pid].birth)
    ensures Replay(Recorded(trace))[pid].birth.pid == pid
  {
    hide Legal, Replay, Recorded, Lawful;
    var h := Recorded(trace);
    LegalIsLawful(run, h);
    ReplayGrounded(h);
    var i :| BirthOf(h, i, Replay(h)[pid]);
    BirthInTrace(trace, i);
  }

  /** Opening the gate of a child keeps the trace safe and adds no record. */
  lemma GateSnoc(run: string, trace: seq<Act>, gates: set<int>, pid: int)
    requires Legal(run, Recorded(trace)) && SafeTrace(trace)
    requires pid in Replay(Recorded(trace)) && UngatedReleased(trace, Replay(Recorded(trace)), gates)
    ensures var table := Replay(Recorded(trace));
            var after := trace + [Gate(table[pid].birth)];
            && table[pid].birth.pid == pid && Recorded(after) == Recorded(trace) && SafeTrace(after)
            && UngatedReleased(after, table, gates - {pid})
  {
    hide Legal, Replay, Recorded, SafeTrace, BirthBefore, UngatedReleased, Released;
    var table := Replay(Recorded(trace));
    var a := Gate(table[pid].birth);
    ChildInTrace(run, trace, pid);
    TraceSnoc(trace, a);
    SafeSnoc(trace, a);
    UngatedGate(trace, table, gates, pid);
  }

  class Witness {
    const log: EvidenceLog
    const run: string
    const boot: string
    const alnum: char -> bool
    var children: map<int, Child>
    /** Pids whose gate descriptor is still held. */
    var gates: set<int>
    var holdings: Holdings
    /** Everything recorded so far, and everything done in order. */
    ghost var history: seq<Event>
    ghost var trace: seq<Act>

    /** What holds of the log and the recorded history at any time. */
    ghost predicate Logged()
      reads this, log
    {
      && log.Valid() && log.fmt == EvidenceFormat() && log.events == Printed(run, boot, history) && history == Recorded(trace)
      && Legal(run, history)
      && (log.sealed <==> history != [] && history[|history| - 1].Sealed?)
      && SafeTrace(trace)
      && (!log.poisoned ==> history != [])
    }

    /** What holds between any two calls. */
    ghost predicate Valid()
      reads this, log
    {
      && Logged()
      && (!log.poisoned ==>
            && children == Replay(history) && holdings == ReplayHoldings(history)
            && UngatedReleased(trace, children, gates)
            && (forall p :: p in children && children[p].status.Some? ==> p !in gates))
    }

    constructor (codec: Codec, run: string, boot: string, broker: string, alnum: char -> bool,
                 parent: Birth, code: string, interpreter: string, headWrites: seq<int>, synced: bool, io: Io)
      requires codec.Valid()
      ensures Valid() && fresh(log) && log.codec == codec && log.fmt == EvidenceFormat()
      ensures this.run == run && this.boot == boot && this.alnum == alnum
      ensures children == map[] && gates == {} && holdings == Holdings(map[], {})
      ensures !log.poisoned ==> trace == [Append(Start(Some(broker), parent, code, interpreter))] && log.OnDisk()
    {
      hide EvidenceLog.Valid, EvidenceLog.Appends, EvidenceLog.OnDisk, Durable, Stopped, Codec.Valid, Codec.CollisionFree;
      hide Print, Printed, Legal, Replay, ReplayHoldings, EvidenceFormat, HeadBytes, Completes, SafeTrace, Recorded;
      this.run, this.boot, this.alnum := run, boot, alnum;
      children, gates, holdings := map[], {}, Holdings(map[], {});
      history, trace := [], [];
      log := new EvidenceLog(codec, EvidenceFormat(), None, headWrites, synced);
      new;
      var start := Start(Some(broker), parent, code, interpreter);
      Genesis(run, boot, start);
      var ok := log.Record(Print(run, boot, start), io);
      if ok {
        history, trace := [start], [Append(start)];
      }
    }

    /** Append an event that the history allows next. Table, holdings and gates
        are the caller's business. */
    method Note(e: Event, io: Io) returns (ok: bool)
      requires Logged() && !e.Sealed? && (!log.poisoned && !log.sealed ==> Allowed(run, history, e))
      requires e.Ended? && !log.poisoned ==> Released(trace, e.birth)
      modifies this`history, this`trace, log
      ensures Logged() && log.sealed == old(log.sealed) && log.tampered == old(log.tampered)
      ensures ok <==> old(log.Appends(Print(run, boot, e), io))
      ensures ok ==> && !old(log.poisoned) && !old(log.sealed) && Replay(history) == Next(Replay(old(history)), e)
                     && ReplayHoldings(history) == NextHoldings(ReplayHoldings(old(history)), e)
      ensures trace == (if ok then old(trace) + [Append(e)] else old(trace))
      ensures history == (if ok then old(history) + [e] else old(history))
      ensures log.poisoned <==> old(log.poisoned) || (!ok && !old(log.sealed))
    {
      hide EvidenceLog.Valid, EvidenceLog.Appends, EvidenceLog.OnDisk, Durable, Stopped, Codec.Valid, Codec.CollisionFree;
      hide Print, Printed, Legal, Allowed, Replay, ReplayHoldings, SafeTrace, Recorded, Released, NextHoldings, EvidenceFormat;
      ok := log.Record(Print(run, boot, e), io);
      if ok {
        Extend(run, boot, history, e);
        TraceSnoc(trace, Append(e));
        SafeSnoc(trace, Append(e));
        history, trace := history + [e], trace + [Append(e)];
      }
    }

    /** The checks before anything is started: in particular the first child,
        and no other, is the broker. */
    predicate Admits(role: string, argsOk: bool, pipeOk: bool)
      reads this, log
    {
      && !log.poisoned && !log.sealed && ShortToken(alnum, role) && argsOk
      && (role == BROKER <==> children == map[])
      && ShortToken(alnum, Launch(run, |children| + 1)) && pipeOk
    }

    /** The birth that a launch records. */
    function Launched(role: string, env: LaunchEnv): Event
      requires Pinned(env)
      reads this
    {
      Born(Launch(run, |children| + 1), role, env.first.value, env.executable.value, env.argv)
    }

    /** Launch a child behind a gate and record its birth; the gate stays shut. */
    method SpawnGated(role: string, argsOk: bool, pipeOk: bool, env: LaunchEnv) returns (r: Option<int>)
      requires Valid()
      modifies this, log
      ensures Valid() && log.sealed == old(log.sealed) && log.tampered == old(log.tampered)
      ensures r.Some? <==> && old(Admits(role, argsOk, pipeOk)) && Pinned(env)
                           && old(log.Appends(Print(run, boot, Launched(role, env)), env.io))
      ensures r.Some? ==>
                && r.value == env.pid && !log.poisoned
                && trace == old(trace) + [Append(old(Launched(role, env)))]
                && children == old(children)[env.pid := Child(env.first.value, Launch(run, |old(children)| + 1), role, None)]
                && gates == old(gates) + {env.pid}
                && holdings == old(holdings).(resources := old(holdings).resources[env.pid := {}])
      ensures r == None ==> trace == old(trace) && children == old(children) && gates == old(gates)
      // Any failure once a process may exist poisons the witness, and nothing else does.
      ensures log.poisoned <==> old(log.poisoned) || (r == None && old(Admits(role, argsOk, pipeOk)))
    {
      hide EvidenceLog.Valid, EvidenceLog.Appends, EvidenceLog.OnDisk, Print, Printed, Legal, Replay, ReplayHoldings;
      hide SafeTrace, Recorded, Released, UngatedReleased, NextHoldings, Next, Launch, EvidenceFormat, ShortToken;
      if log.poisoned || log.sealed || !ShortToken(alnum, role) || !argsOk { return None; }
      if (children == map[]) != (role == "broker") { return None; }
      var launch := Launch(run, |children| + 1);
      if !ShortToken(alnum, launch) || !pipeOk { return None; }
      var first, second := ReadBirth(env.pid, env.first), ReadBirth(env.pid, env.second);
      if !env.started || first == None || first != second || env.gone || env.executable == None {
        log.Poison();
        return None;
      }
      var e := Born(launch, role, first.value, env.executable.value, env.argv);
      var ok := Note(e, env.io);
      if !ok { return None; }
      BornNext(children, e);
      BornHolds(holdings, e);
      UngatedNote(old(trace), children, gates, e);
      children := children[env.pid := Child(first.value, launch, role, None)];
      gates := gates + {env.pid};
      holdings := holdings.(resources := holdings.resources[env.pid := {}]);
      return Some(env.pid);
    }

    /** The release byte is tried: the child holds its gate and is still itself. */
    predicate Opens(pid: int, exited: bool, reading: Option<Birth>)
      reads this, log
    {
      && pid in children && !log.poisoned && pid in gates && !exited
      && reading.Some? && reading.value.pid == pid && reading.value == children[pid].birth
    }

    /** A failure that poisons: only an unknown pid or an unreadable entry of a
        gated child does not. */
    predicate Refuses(pid: int, exited: bool, reading: Option<Birth>)
      reads this
    {
      pid in children && (pid !in gates || exited || (reading.Some? && reading.value.pid == pid))
    }

    /** Send the release byte through a child's gate. `reading` is what /proc
        reports for the pid now; an unreadable entry raises without poisoning. */
    method ReleaseGate(pid: int, exited: bool, reading: Option<Birth>, written: bool) returns (ok: bool)
      requires Valid()
      modifies this`gates, this`trace, log
      ensures Valid() && log.sealed == old(log.sealed) && log.tampered == old(log.tampered) && log.events == old(log.events)
      ensures old(log.poisoned) ==> log.poisoned
      ensures ok <==> && pid in children && !old(log.poisoned) && pid in old(gates) && !exited && written
                      && reading.Some? && reading.value == children[pid].birth && children[pid].birth.pid == pid
      ensures trace == if ok then old(trace) + [Gate(children[pid].birth)] else old(trace)
      // A gate is closed once its byte was tried, and any failure but an
      // unreadable entry poisons.
      ensures gates == if old(Opens(pid, exited, reading)) then old(gates) - {pid} else old(gates)
      ensures log.poisoned <==> old(log.poisoned) || (!ok && old(Refuses(pid, exited, reading)))
    {
      hide EvidenceLog.Valid, EvidenceLog.OnDisk, Printed, Legal, Replay, ReplayHoldings, SafeTrace, Recorded, BirthBefore, UngatedReleased;
      hide Released, EvidenceLog.Appends, Next, EvidenceFormat;
      if pid !in children { return false; }
      if log.poisoned || pid !in gates || exited {
        log.Poison();
        return false;
      }
      var now := ReadBirth(pid, reading);
      if now == None { return false; }
      if now.value != children[pid].birth {
        log.Poison();
        return false;
      }
      if !written {
        gates := gates - {pid};
        log.Poison();
        return false;
      }
      var a := Gate(children[pid].birth);
      GateSnoc(run, trace, gates, pid);
      gates, trace := gates - {pid}, trace + [a];
      return true;
    }

    /** The child was released and is still running as far as the table knows. */
    predicate Awaits(pid: int, timeout: int)
      reads this, log
    {
      pid in children && !log.poisoned && pid !in gates && children[pid].status == None && timeout >= 0
    }

    function Exit(pid: int, status: int): Event
      requires pid in children
      reads this
    {
      Ended(children[pid].launch, children[pid].role, children[pid].birth, status)
    }

    method Wait(pid: int, timeout: int, env: WaitEnv) returns (r: Option<int>)
      requires Valid()
      modifies this, log
      ensures Valid() && log.sealed == old(log.sealed) && log.tampered == old(log.tampered)
      ensures gates == old(gates) && holdings == old(holdings)
      ensures r.Some? <==> && old(Awaits(pid, timeout)) && env.Reaped? && env.pid == pid
                           && old(log.Appends(Print(run, boot, Exit(pid, env.status)), env.io))
      ensures r.Some? ==> r.value == env.status && trace == old(trace) + [Append(old(Exit(pid, env.status)))]
      ensures r == None ==> trace == old(trace)
      // The status is kept in memory as soon as the child is reaped.
      ensures children == if old(Awaits(pid, timeout)) && env.Reaped? && env.pid == pid
                          then old(children)[pid := old(children)[pid].(status := Some(env.status))] else old(children)
      ensures log.poisoned <==> old(log.poisoned) || (r == None && old(Awaits(pid, timeout)))
    {
      hide EvidenceLog.Valid, EvidenceLog.Appends, EvidenceLog.OnDisk, Print, Printed, Legal, Replay, ReplayHoldings, SafeTrace, Recorded, Released, EvidenceFormat;
      if pid !in children || log.poisoned || pid in gates || children[pid].status.Some? || timeout < 0 { return None; }
      if !env.Reaped? || env.pid != pid {
        log.Poison();
        return None;
      }
      var c := children[pid];
      var e := Ended(c.launch, c.role, c.birth, env.status);
      ChildInTrace(run, trace, pid);
      SealedEnded(run, history);
      EndedNext(children, e);
      EndedHolds(holdings, e);
      UngatedNote(trace, children, gates, e);
      children := children[pid := c.(status := Some(env.status))];
      var ok := Note(e, env.io);
      return if ok then Some(env.status) else None;
    }

    /** A released, running child that this backing was not yet recorded for. */
    predicate Holds(pid: int, dev: int, ino: int)
      reads this, log
    {
      && !log.poisoned && !log.sealed && ValidResource(dev, ino) && Awaits(pid, 0)
      && pid in holdings.resources && (dev, ino) !in holdings.resources[pid]
    }

    function Seen(pid: int, dev: int, ino: int, mapped: bool): Event
      requires pid in children
      reads this
    {
      Observed(children[pid].launch, children[pid].role, children[pid].birth, dev, ino, mapped)
    }

    /** A live child stably holds the backing, before and after the append. */
    method RecordChildBacking(pid: int, dev: int, ino: int, before: bool, found: bool, mapped: bool, io: Io, after: bool)
      returns (ok: bool)
      requires Valid()
      modifies this, log
      ensures Valid() && log.sealed == old(log.sealed) && log.tampered == old(log.tampered)
      ensures children == old(children) && gates == old(gates)
      ensures log.poisoned <==> old(log.poisoned) || (!ok && !old(log.sealed))
      // The observation is recorded once the child is seen to hold the backing,
      // and counts as a holding only if the child is still the same afterwards.
      ensures trace == if old(Holds(pid, dev, ino)) && before && found && old(log.Appends(Print(run, boot, Seen(pid, dev, ino, mapped)), io))
                       then old(trace) + [Append(old(Seen(pid, dev, ino, mapped)))] else old(trace)
      ensures ok <==> trace != old(trace) && after
      ensures ok ==> pid in old(holdings).resources
      ensures holdings == if ok then old(holdings).(resources := old(holdings).resources[pid := old(holdings).resources[pid] + {(dev, ino)}])
                          else old(holdings)
    {
      hide EvidenceLog.Valid, EvidenceLog.Appends, EvidenceLog.OnDisk, Print, Printed, Legal, Replay, ReplayHoldings, SafeTrace, Recorded, Released, EvidenceFormat;
      hide UngatedReleased, NextHoldings, Next, Token, Launch, Allowed;
      if log.poisoned || log.sealed { return false; }
      SamePids(history);
      if dev < 0 || ino <= 0 || pid !in children || (dev, ino) in holdings.resources[pid] || pid in gates
         || children[pid].status.Some? || !before || !found {
        log.Poison();
        return false;
      }
      var c := children[pid];
      var e := Observed(c.launch, c.role, c.birth, dev, ino, mapped);
      SeenAllowed(run, trace, pid, e);
      UngatedNote(trace, children, gates, e);
      ok := Note(e, io);
      if !ok { return; }
      if !after {
        log.Poison();
        return false;
      }
      SeenHolds(holdings, e);
      holdings := holdings.(resources := holdings.resources[pid := holdings.resources[pid] + {(dev, ino)}]);
    }

    /** The witness itself holds no descriptor or mapping of the backing. */
    method RecordNoBacking(dev: int, ino: int, holds: bool, io: Io) returns (ok: bool)
      requires Valid()
      modifies this, log
      ensures Valid() && log.sealed == old(log.sealed) && log.tampered == old(log.tampered)
      ensures children == old(children) && gates == old(gates)
      ensures log.poisoned <==> old(log.poisoned) || (!ok && !old(log.sealed))
      ensures ok <==> && ValidResource(dev, ino) && !holds && (dev, ino) !in old(holdings).absent
                      && old(log.Appends(Print(run, boot, Absent(dev, ino)), io))
      ensures trace == (if ok then old(trace) + [Append(Absent(dev, ino))] else old(trace))
      ensures holdings == if ok then old(holdings).(absent := old(holdings).absent + {(dev, ino)}) else old(holdings)
    {
      hide EvidenceLog.Valid, EvidenceLog.Appends, EvidenceLog.OnDisk, Print, Printed, Legal, Replay, ReplayHoldings, SafeTrace, Recorded, Released, EvidenceFormat;
      if log.poisoned || log.sealed {
        log.Closed(Print(run, boot, Absent(dev, ino)), io);
        return false;
      }
      if dev < 0 || ino <= 0 || (dev, ino) in holdings.absent || holds {
        log.Poison();
        return false;
      }
      var e := Absent(dev, ino);
      AbsentKeeps(children, holdings, e);
      UngatedNote(trace, children, gates, e);
      ok := Note(e, io);
      if ok { holdings := holdings.(absent := holdings.absent + {(dev, ino)}); }
    }

    method Seal(io: Io) returns (ok: bool)
      requires Valid()
      modifies this`history, this`trace, log
      ensures Valid() && log.tampered == old(log.tampered)
      ensures old(log.poisoned || log.sealed) ==>
                !ok && trace == old(trace) && log.sealed == old(log.sealed) && log.poisoned == old(log.poisoned)
      ensures log.sealed <==> old(log.sealed) || ok
      ensures ok <==> && children != map[] && AllExitedZero(children)
                      && old(log.Appends(Print(run, boot, Sealed(|children|, true)), io))
      ensures ok ==> forall p :: p in children ==> Released(trace, children[p].birth)
      ensures trace == if ok then old(trace) + [Append(Sealed(|children|, true))] else old(trace)
      ensures log.poisoned <==> old(log.poisoned) || (!ok && children != map[] && AllExitedZero(children) && !old(log.sealed))
    {
      hide EvidenceLog.Valid, EvidenceLog.Appends, EvidenceLog.OnDisk, Durable, Stopped, Codec.Valid, Codec.CollisionFree;
      hide Print, Printed, Legal, Replay, ReplayHoldings, SafeTrace, Recorded, Released, UngatedReleased;
      hide AllExitedZero, EvidenceFormat, Launch;
      if log.poisoned || log.sealed {
        log.Closed(Print(run, boot, Sealed(|children|, true)), io);
        return false;
      }
      if children == map[] || !AllExitedZero(children) { return false; }
      var e := Sealed(|children|, true);
      ok := log.Record(Print(run, boot, e), io);
      if !ok { return false; }
      SealStep(run, boot, trace, children, gates, e);
      history, trace := history + [e], trace + [Append(e)];
      log.Seal();
    }
  }

  lemma BornHolds(x: Holdings, e: Event)
    requires e.Born?
    ensures NextHoldings(x, e) == x.(resources := x.resources[e.birth.pid := {}])
  {
  }

  lemma EndedNext(m: map<int, Child>, e: Event)
    requires e.Ended? && e.birth.pid in m
    ensures Next(m, e) == m[e.birth.pid := m[e.birth.pid].(status := Some(e.status))]
  {
  }

  lemma EndedHolds(x: Holdings, e: Event)
    requires e.Ended?
    ensures NextHoldings(x, e) == x
  {
  }

  lemma SeenAllowed(run: string, trace: seq<Act>, pid: int, e: Event)
    requires var h := Recorded(trace);
             && Legal(run, h) && h != [] && !h[|h| - 1].Sealed? && pid in Replay(h) && Replay(h)[pid].status == None
             && e.Observed? && ValidResource(e.dev, e.ino) && Replay(h)[pid] == Child(e.birth, e.launch, e.role, None)
             && pid in ReplayHoldings(h).resources && (e.dev, e.ino) !in ReplayHoldings(h).resources[pid]
    ensures e.birth.pid == pid && Allowed(run, Recorded(trace), e) && Next(Replay(Recorded(trace)), e) == Replay(Recorded(trace))
  {
    hide Legal, Replay, ReplayHoldings, Recorded;
    ChildInTrace(run, trace, pid);
  }

  lemma SeenHolds(x: Holdings, e: Event)
    requires e.Observed? && e.birth.pid in x.resources
    ensures NextHoldings(x, e) ==
            x.(resources := x.resources[e.birth.pid := x.resources[e.birth.pid] + {(e.dev, e.ino)}])
  {
  }

  lemma AbsentKeeps(m: map<int, Child>, x: Holdings, e: Event)
    requires e.Absent?
    ensures Next(m, e) == m && NextHoldings(x, e) == x.(absent := x.absent + {(e.dev, e.ino)})
  {
  }

  /** What a seal does to everything that a witness maintains. */
  lemma SealStep(run: string, boot: string, trace: seq<Act>, m: map<int, Child>, gates: set<int>, e: Event)
    requires Legal(run, Recorded(trace)) && Allowed(run, Recorded(trace), e) && e.Sealed? && SafeTrace(trace)
    requires UngatedReleased(trace, m, gates) && AllExitedZero(m)
    requires forall p :: p in m && m[p].status.Some? ==> p !in gates
    ensures var h, trace' := Recorded(trace), trace + [Append(e)];
            && Recorded(trace') == h + [e] && Legal(run, h + [e]) && SafeTrace(trace')
            && Printed(run, boot, h + [e]) == Printed(run, boot, h) + [Print(run, boot, e)]
            && Replay(h + [e]) == Replay(h) && ReplayHoldings(h + [e]) == ReplayHoldings(h)
            && UngatedReleased(trace', m, gates) && forall p :: p in m ==> Released(trace', m[p].birth)
  {
    hide Legal, Allowed, SafeTrace, Recorded, Released, Printed, Print, Replay, ReplayHoldings, UngatedReleased, AllExitedZero;
    Extend(run, boot, Recorded(trace), e);
    TraceSnoc(trace, Append(e));
    SafeSnoc(trace, Append(e));
    UngatedNote(trace, m, gates, e);
    ZeroMeansReleased(trace + [Append(e)], m, gates);
  }

  lemma ZeroMeansReleased(trace: seq<Act>, m: map<int, Child>, gates: set<int>)
    requires UngatedReleased(trace, m, gates) && AllExitedZero(m)
    requires forall p :: p in m && m[p].status.Some? ==> p !in gates
    ensures forall p :: p in m ==> Released(trace, m[p].birth)
  {
    hide Released;
  }

  lemma SealedEnded(run: string, h: seq<Event>)
    requires Legal(run, h)
    ensures h != [] && h[|h| - 1].Sealed? ==> forall p :: p in Replay(h) ==> Replay(h)[p].status.Some?
  {
    if |h| > 1 { assert Allowed(run, h[..|h| - 1], h[|h| - 1]); }
  }

  lemma Genesis(run: string, boot: string, start: Event)
    requires start.Start?
    ensures Printed(run, boot, []) == [] && Printed(run, boot, [start]) == [] + [Print(run, boot, start)]
    ensures Legal(run, []) && Legal(run, [start])
    ensures Replay([start]) == map[] && ReplayHoldings([start]) == Holdings(map[], {})
    ensures Recorded([]) == [] && Recorded([Append(start)]) == [start]
    ensures SafeTrace([]) && SafeTrace([Append(start)])
  {
    PrintedSnoc(run, boot, [], start);
    assert [] + [start] == [start];
    assert [start][..0] == [] && [Append(start)][..0] == [];
  }

  /** `trace[i]`, `trace[g]` and `trace[j]` are the birth, the release and the
      normal end of one child, in that order. */
  predicate Lifecycle(trace: seq<Act>, b: Birth, i: int, g: int, j: int) {
    && i < g < j && BirthAppended(trace, i, b) && GateAt(trace, g, b)
    && j < |trace| && trace[j].Append? && trace[j].event.Ended? && trace[j].event.birth == b && trace[j].event.status == 0
  }

  /** Whole-run safety: in a sealed witness no birth of which overwrote a failure
      or a child not yet reaped, every child whose birth is in the journal was
      released after its birth frame and exited with status zero after its
      release. */
  lemma SealedRunIsSafe(w: Witness, b: Birth, k: int)
    requires w.Valid() && w.log.sealed && NoFailureLost(w.history) && NoLiveLost(w.history)
    requires BirthAppended(w.trace, k, b)
    ensures exists i, g, j :: Lifecycle(w.trace, b, i, g, j)
  {
    hide Legal, Recorded, NoFailureLost, NoLiveLost, EndsZero, BornCount, PidsDistinct, Printed, EvidenceFormat, SafeTrace;
    SealMeans(w.run, w.history);
    SafeLifecycle(w.trace, b, k);
  }

  /** Without pid reuse there is nothing to overwrite. */
  lemma FreshPidsLoseNothing(w: Witness)
    requires w.Valid() && w.log.sealed && PidsDistinct(w.history)
    ensures NoFailureLost(w.history) && NoLiveLost(w.history)
  {
    hide Legal, Recorded, NoFailureLost, NoLiveLost, EndsZero, BornCount, PidsDistinct, Printed, EvidenceFormat, SafeTrace;
    SealMeans(w.run, w.history);
  }

  lemma SafeLifecycle(trace: seq<Act>, b: Birth, k: int)
    requires SafeTrace(trace) && BirthAppended(trace, k, b) && EndsZero(Recorded(trace))
    requires forall i :: 0 <= i < |Recorded(trace)| && Recorded(trace)[i].Born? ==> HasOwnEnd(Recorded(trace), i)
    ensures exists i, g, j :: Lifecycle(trace, b, i, g, j)
  {
    hide Recorded;
    var h := Recorded(trace);
    var r := RecordedAt(trace, k);
    var e :| OwnEnd(h, r, e);
    var j := AppendedAt(trace, e);
    assert GateBefore(trace, j, trace[j].event.birth);
    var g :| g < j && GateAt(trace, g, b);
    assert BirthBefore(trace, g, trace[g].birth);
    var i :| i < g && BirthAppended(trace, i, b);
    assert Lifecycle(trace, b, i, g, j);
  }

  /** Where an append of the trace stands in the journal. */
  lemma {:induction false} RecordedAt(trace: seq<Act>, k: int) returns (r: int)
    requires 0 <= k < |trace| && trace[k].Append?
    ensures 0 <= r < |Recorded(trace)| && Recorded(trace)[r] == trace[k].event
  {
    var n := |trace| - 1;
    if k < n {
      r := RecordedAt(trace[..n], k);
    } else {
      r := |Recorded(trace)| - 1;
    }
  }

  /** Where a journal event stands in the trace. */
  lemma {:induction false} AppendedAt(trace: seq<Act>, r: int) returns (k: int)
    requires 0 <= r < |Recorded(trace)|
    ensures 0 <= k < |trace| && trace[k] == Append(Recorded(trace)[r])
  {
    var n := |trace| - 1;
    if r < |Recorded(trace[..n])| {
      k := AppendedAt(trace[..n], r);
    } else {
      k := n;
    }
  }

  lemma ShortFormat()
    ensures |EvidenceFormat().head| <= 64 && |EvidenceFormat().genesis| == 64
  {
    ZerosLength(64);
  }

  /** Between any two calls, unless the log is poisoned or somebody else wrote
      to the files, the child table, the resources and the absent set are the
      replay of the journal on disk from its first frame. */
  lemma StateIsReplayOfJournal(w: Witness)
    requires w.Valid() && !w.log.poisoned && !w.log.tampered && ShortHeads(w.log.codec)
    ensures var v := Verified(w.log.codec, w.log.fmt, w.log.journalFile, w.log.headFile);
            && v.Some? && Journal.Events(v.value) == Printed(w.run, w.boot, w.history)
            && w.children == ReplayFile(Journal.Events(v.value)) && w.holdings == HoldingsFile(Journal.Events(v.value))
            && ReadEvents(w.run, w.boot, Journal.Events(v.value)) == Some(w.history)
  {
    hide Legal, Replay, ReplayHoldings, Printed, SafeTrace, Recorded, Verified, Codec.Valid, FramesFit, Stamp, Log, HeadBytes, ShortHeads, EvidenceFormat;
    ShortFormat();
    HeadFits(w.log.codec, w.log.fmt, w.log.events);
    WriterAccepted(w.log.codec, w.log.fmt, w.log.events);
    FileReplays(w.run, w.boot, w.history);
    FileHoldings(w.run, w.boot, w.history);
    HistoryReadsBack(w.run, w.boot, w.history);
  }
}
