/** The supervisor witness: direct parent of gated children and single writer
    of the evidence log. */
module Supervisor {
  import opened Values
  import opened Journal
  import opened EvidenceLogs
  import opened Roster
  import opened Events
  import opened Text
  import opened ChildTable
  import opened SupervisorHistory

  const SCHEMA: string := "uflow-ddr-witness-fixture-v1"

  function FixtureFormat(): Format { Format(SCHEMA, SCHEMA, Zeros(64)) }

  /** What the system does while a child is launched. `None` is a raised
      error; a birth is what one reading of /proc reports. */
  datatype LaunchEnv = LaunchEnv(bindingOk: bool, code: Option<string>, argv: string, pipeOk: bool, started: bool,
                                 pid: int, first: Option<Birth>, second: Option<Birth>, gone: bool, io: Io,
                                 goneAtGate: bool, gateWritten: bool)

  /** Outcome of polling and reaping a child. */
  datatype WaitEnv = TimedOut | NoSuchChild | Reaped(pid: int, status: int, io: Io)

  /** The started child was read twice as the same birth and did not exit. */
  predicate Pinned(env: LaunchEnv) {
    env.started && env.first.Some? && env.first.value.pid == env.pid && env.first == env.second && !env.gone
  }

  ghost predicate LaunchesBelow(run: string, h: seq<Event>, n: nat) {
    forall i :: 0 <= i < |h| && h[i].Born? ==> LaunchBelow(run, h[i].launch, n)
  }

  ghost predicate LaunchBelow(run: string, launch: string, n: nat) { exists k: nat :: k < n && launch == Launch(run, k) }

  lemma NextLaunchUnused(run: string, h: seq<Event>, n: nat)
    requires LaunchesBelow(run, h, n)
    ensures UnusedLaunch(h, Launch(run, n)) && LaunchBelow(run, Launch(run, n), n + 1)
  {
    forall i | 0 <= i < |h| && h[i].Born? ensures h[i].launch != Launch(run, n) {
      var k: nat :| k < n && h[i].launch == Launch(run, k);
      if Launch(run, k) == Launch(run, n) { LaunchInjective(run, k, n); }
    }
  }

  lemma LaunchesGrow(run: string, h: seq<Event>, n: nat)
    requires LaunchesBelow(run, h, n)
    ensures LaunchesBelow(run, h, n + 1)
  {
    forall i | 0 <= i < |h| && h[i].Born? ensures LaunchBelow(run, h[i].launch, n + 1) {
      var k: nat :| k < n && h[i].launch == Launch(run, k);
    }
  }

  lemma BelowSnoc(run: string, h: seq<Event>, n: nat, e: Event)
    requires LaunchesBelow(run, h, n) && (e.Born? ==> LaunchBelow(run, e.launch, n))
    ensures LaunchesBelow(run, h + [e], n)
  {
  }

  /** One more event in a legal history. */
  lemma Extend(run: string, boot: string, alnum: char -> bool, h: seq<Event>, e: Event)
    requires Legal(run, alnum, h) && Allowed(run, alnum, h, e)
    ensures Legal(run, alnum, h + [e]) && Replay(h + [e]) == Next(Replay(h), e)
    ensures Printed(run, boot, h + [e]) == Printed(run, boot, h) + [Print(run, boot, e)]
  {
    PrintedSnoc(run, boot, h, e);
    assert (h + [e])[..|h|] == h;
  }

  lemma Genesis(run: string, boot: string, alnum: char -> bool, start: Event)
    requires start.Start?
    ensures Printed(run, boot, []) == [] && Printed(run, boot, [start]) == [] + [Print(run, boot, start)]
    ensures Legal(run, alnum, []) && Legal(run, alnum, [start]) && Replay([start]) == map[]
    ensures LaunchesBelow(run, [], 1) && LaunchesBelow(run, [start], 1)
    ensures ReleasedAfterBirth([], {}) && ReleasedAfterBirth([start], {})
  {
    PrintedSnoc(run, boot, [], start);
    assert [] + [start] == [start];
    assert [start][..0] == [];
  }

  /** The gate of a launch was opened only after its birth was recorded. */
  ghost predicate ReleasedAfterBirth(h: seq<Event>, released: set<string>) {
    forall l :: l in released ==> RecordedLaunch(h, l)
  }

  ghost predicate RecordedLaunch(h: seq<Event>, launch: string) {
    exists i :: 0 <= i < |h| && h[i].Born? && h[i].launch == launch
  }

  lemma ReleasedSnoc(h: seq<Event>, released: set<string>, e: Event)
    requires ReleasedAfterBirth(h, released)
    ensures ReleasedAfterBirth(h + [e], released)
    ensures e.Born? ==> ReleasedAfterBirth(h + [e], released + {e.launch})
  {
    var all := h + [e];
    forall l | l in released ensures RecordedLaunch(all, l) {
      var i :| 0 <= i < |h| && h[i].Born? && h[i].launch == l;
      assert all[i] == h[i];
    }
    if e.Born? {
      assert all[|h|] == e;
      assert RecordedLaunch(all, e.launch);
    }
  }

  class Witness {
    const log: EvidenceLog
    const run: string
    const boot: string
    const alnum: char -> bool
    const requireBinding: bool
    var children: map<int, Child>
    var nextLaunch: nat
    /** The deployment pinned this witness, and the only executable it may launch. */
    var bound: bool
    var childPin: string
    /** Everything recorded so far, and the launches whose gate byte was sent. */
    ghost var history: seq<Event>
    ghost var released: set<string>

    /** What holds of the log and the recorded history at any time. */
    ghost predicate Logged()
      reads this, log
    {
      && log.Valid() && log.fmt == FixtureFormat() && log.events == Printed(run, boot, history)
      && Legal(run, alnum, history) && LaunchesBelow(run, history, nextLaunch)
      && (log.sealed <==> history != [] && history[|history| - 1].Sealed?)
      && (!log.poisoned ==> history != [])
      && ReleasedAfterBirth(history, released)
    }

    /** What holds between any two calls. */
    ghost predicate Valid()
      reads this, log
    {
      Logged() && (!log.poisoned ==> children == Replay(history))
    }

    constructor (codec: Codec, run: string, boot: string, alnum: char -> bool, requireBinding: bool,
                 parent: Birth, code: string, interpreter: string, headWrites: seq<int>, synced: bool, io: Io)
      requires codec.Valid()
      ensures Valid() && fresh(log) && log.codec == codec && log.fmt == FixtureFormat()
      ensures this.run == run && this.boot == boot && this.alnum == alnum && this.requireBinding == requireBinding
      ensures children == map[] && released == {} && !bound
      ensures !log.poisoned ==> history == [Start(None, parent, code, interpreter)] && log.OnDisk()
    {
      hide EvidenceLog.Valid, EvidenceLog.Appends, EvidenceLog.OnDisk, Durable, Stopped, Codec.Valid, Codec.CollisionFree;
      hide Print, Printed, Legal, Replay, LaunchesBelow, ReleasedAfterBirth, FixtureFormat, HeadBytes, Completes;
      this.run, this.boot, this.alnum, this.requireBinding := run, boot, alnum, requireBinding;
      children, nextLaunch, bound, childPin := map[], 1, false, "";
      history, released := [], {};
      log := new EvidenceLog(codec, FixtureFormat(), Some(MAX_HEAD), headWrites, synced);
      new;
      var start := Start(None, parent, code, interpreter);
      Genesis(run, boot, alnum, start);
      var ok := log.Record(Print(run, boot, start), io);
      if ok {
        history := [start];
      }
    }

    /** Append an event that the history allows next. The table is the
        caller's business. */
    method Note(e: Event, io: Io) returns (ok: bool)
      requires Logged() && (!log.poisoned && !log.sealed ==> Allowed(run, alnum, history, e)) && !e.Sealed?
      requires e.Born? ==> LaunchBelow(run, e.launch, nextLaunch)
      modifies this`history, log
      ensures Logged() && log.sealed == old(log.sealed) && log.tampered == old(log.tampered)
      ensures ok <==> old(log.Appends(Print(run, boot, e), io))
      ensures ok ==> !old(log.poisoned) && !old(log.sealed) && Replay(history) == Next(Replay(old(history)), e)
      ensures history == if ok then old(history) + [e] else old(history)
      ensures log.poisoned <==> old(log.poisoned) || (!ok && !old(log.sealed))
    {
      hide EvidenceLog.Valid, EvidenceLog.Appends, EvidenceLog.OnDisk, Durable, Stopped, Codec.Valid, Codec.CollisionFree, Print;
      hide Legal, Allowed, Replay, LaunchesBelow, LaunchBelow, ReleasedAfterBirth, Next, FixtureFormat;
      ok := log.Record(Print(run, boot, e), io);
      if ok {
        Extend(run, boot, alnum, history, e);
        ReleasedSnoc(history, released, e);
        BelowSnoc(run, history, nextLaunch, e);
        history := history + [e];
      }
    }

    /** The checks before anything is started. */
    predicate Admits(role: string, argvOk: bool, env: LaunchEnv)
      reads this, log
    {
      && !log.poisoned && !log.sealed && role != "" && argvOk
      && (requireBinding ==> bound && env.bindingOk)
      && Token(alnum, role) && env.code.Some? && (requireBinding ==> env.code.value == childPin)
    }

    /** The deployment's pin no longer holds, or names another executable. */
    predicate Mismatched(role: string, argvOk: bool, env: LaunchEnv)
      reads this, log
    {
      && !log.poisoned && !log.sealed && role != "" && argvOk && requireBinding && bound
      && (!env.bindingOk || (Token(alnum, role) && env.code.Some? && env.code.value != childPin))
    }

    /** The birth that a launch records. */
    function Launched(role: string, env: LaunchEnv): Event
      requires env.first.Some? && env.code.Some?
      reads this
    {
      Born(Launch(run, nextLaunch), role, env.first.value, env.code.value, env.argv)
    }

    /** Exactly when the birth of a launched child is recorded. */
    predicate Records(role: string, argvOk: bool, env: LaunchEnv)
      reads this, log
    {
      Admits(role, argvOk, env) && env.pipeOk && Pinned(env) && log.Appends(Print(run, boot, Launched(role, env)), env.io)
    }

    /** Launch a child behind its gate, record its birth, then open the gate. */
    method Spawn(role: string, argvOk: bool, env: LaunchEnv) returns (r: Option<int>)
      requires Valid()
      modifies this, log
      ensures Valid() && log.sealed == old(log.sealed) && log.tampered == old(log.tampered)
      ensures old(log.poisoned) ==> log.poisoned
      ensures bound == old(bound) && childPin == old(childPin)
      // Nothing happens once poisoned or sealed.
      ensures old(log.poisoned || log.sealed) ==>
                history == old(history) && released == old(released) && log.poisoned == old(log.poisoned)
      // The birth is recorded, then the gate is opened; any failure once a
      // process may exist poisons the witness.
      ensures old(Records(role, argvOk, env)) ==>
                && history == old(history) + [old(Launched(role, env))]
                && children == old(children)[env.pid := Child(env.first.value, Launch(run, old(nextLaunch)), role, None)]
      ensures !old(Records(role, argvOk, env)) ==> history == old(history) && children == old(children)
      ensures r.Some? <==> old(Records(role, argvOk, env)) && !env.goneAtGate && env.gateWritten
      ensures r.Some? ==> r.value == env.pid && !log.poisoned
      ensures log.poisoned <==> || old(log.poisoned) || (r == None && env.pipeOk && old(Admits(role, argvOk, env)))
                                || old(Mismatched(role, argvOk, env))
      ensures nextLaunch == old(nextLaunch) + if old(Admits(role, argvOk, env)) then 1 else 0
      ensures released == (if r.Some? then old(released) + {Launch(run, old(nextLaunch))} else old(released))
    {
      hide EvidenceLog.Valid, EvidenceLog.Appends, Legal, Replay, LaunchesBelow, LaunchBelow, Print, Printed, Token;
      hide ReleasedAfterBirth, RecordedLaunch, Launch, UnusedLaunch, EvidenceLog.OnDisk, Next, FixtureFormat;
      if log.poisoned || log.sealed || role == "" || !argvOk { return None; }
      if requireBinding {
        if !bound { return None; }
        if !env.bindingOk { log.Poison(); return None; }
      }
      if !Token(alnum, role) || env.code == None { return None; }
      if requireBinding && env.code.value != childPin { log.Poison(); return None; }
      var launch := Launch(run, nextLaunch);
      NextLaunchUnused(run, history, nextLaunch);
      LaunchesGrow(run, history, nextLaunch);
      LaunchStarts(run, nextLaunch);
      nextLaunch := nextLaunch + 1;
      if !env.pipeOk { return None; }
      r := Enrol(launch, role, env);
    }

    /** Exactly when a started child is recorded. */
    predicate Enrols(launch: string, role: string, env: LaunchEnv)
      reads this, log
    {
      && env.code.Some? && Pinned(env)
      && log.Appends(Print(run, boot, Born(launch, role, env.first.value, env.code.value, env.argv)), env.io)
    }

    /** The part of a launch in which a process exists: any failure poisons. */
    method Enrol(launch: string, role: string, env: LaunchEnv) returns (r: Option<int>)
      requires Valid() && !log.poisoned && !log.sealed && Token(alnum, role) && env.code.Some?
      requires UnusedLaunch(history, launch) && run + "-" <= launch && LaunchBelow(run, launch, nextLaunch)
      modifies this`history, this`children, this`released, log
      ensures Valid() && log.sealed == old(log.sealed) && log.tampered == old(log.tampered)
      ensures old(Enrols(launch, role, env)) ==>
                && history == old(history) + [Born(launch, role, env.first.value, env.code.value, env.argv)]
                && children == old(children)[env.pid := Child(env.first.value, launch, role, None)]
      ensures !old(Enrols(launch, role, env)) ==> history == old(history) && children == old(children)
      ensures r == (if old(Enrols(launch, role, env)) && !env.goneAtGate && env.gateWritten then Some(env.pid) else None)
      ensures log.poisoned <==> r == None
      ensures released == (if r.Some? then old(released) + {launch} else old(released))
    {
      hide EvidenceLog.Valid, EvidenceLog.Appends, Legal, Replay, LaunchesBelow, LaunchBelow, Print, Printed, Token;
      hide ReleasedAfterBirth, RecordedLaunch, UnusedLaunch, EvidenceLog.OnDisk, Next, FixtureFormat;
      var first, second := ReadBirth(env.pid, env.first), ReadBirth(env.pid, env.second);
      if !env.started || first == None || first != second || env.gone { log.Poison(); return None; }
      var e := Born(launch, role, first.value, env.code.value, env.argv);
      assert Allowed(run, alnum, history, e);
      hide Allowed;
      var ok := Note(e, env.io);
      if !ok { return None; }
      BornNext(children, e);
      children := children[env.pid := Child(first.value, launch, role, None)];
      if env.goneAtGate || !env.gateWritten { log.Poison(); return None; }
      ReleasedBorn(old(history), released, e);
      released := released + {launch};
      return Some(env.pid);
    }

    /** The child is known, still running as far as the table knows, and the
        timeout makes sense. */
    predicate Awaits(pid: int, timeout: Option<int>)
      reads this
    {
      pid in children && children[pid].status == None && (timeout.Some? ==> timeout.value >= 0)
    }

    function Exit(pid: int, status: int): Event
      requires pid in children
      reads this
    {
      Ended(children[pid].launch, children[pid].role, children[pid].birth, status)
    }

    method Wait(pid: int, timeout: Option<int>, env: WaitEnv) returns (r: Option<int>)
      requires Valid()
      modifies this`children, this`history, log
      ensures Valid() && log.sealed == old(log.sealed) && log.tampered == old(log.tampered)
      ensures old(log.poisoned) ==> log.poisoned
      ensures r.Some? <==> && old(Awaits(pid, timeout)) && env.Reaped? && env.pid == pid
                           && old(log.Appends(Print(run, boot, Exit(pid, env.status)), env.io))
      ensures r.Some? ==> r.value == env.status && history == old(history) + [old(Exit(pid, env.status))]
      ensures r == None ==> history == old(history)
      // The status is kept in memory as soon as the child is reaped.
      ensures children == if old(Awaits(pid, timeout)) && env.Reaped? && env.pid == pid
                          then old(children)[pid := old(children)[pid].(status := Some(env.status))] else old(children)
      // A wait that cannot establish the status poisons the witness.
      ensures log.poisoned <==> old(log.poisoned) || (old(Awaits(pid, timeout)) && r == None && !(env.TimedOut? && timeout == None))
    {
      hide EvidenceLog.Valid, EvidenceLog.Appends, EvidenceLog.OnDisk, Legal, LaunchesBelow, LaunchBelow, Print, Printed, ReleasedAfterBirth, Replay, FixtureFormat;
      if pid !in children || children[pid].status.Some? { return None; }
      if timeout.Some? && timeout.value < 0 { return None; }
      match env {
        case TimedOut =>
          if timeout.Some? { log.Poison(); }
          return None;
        case NoSuchChild =>
          log.Poison();
          return None;
        case Reaped(reaped, status, io) =>
          if reaped != pid { log.Poison(); return None; }
          var c := children[pid];
          var e := Ended(c.launch, c.role, c.birth, status);
          if !log.poisoned {
            OwnPid(run, alnum, history, pid);
            SealedEnded(run, alnum, history);
          }
          children := children[pid := c.(status := Some(status))];
          var ok := Note(e, io);
          return if ok then Some(status) else None;
      }
    }

    /** The witness itself holds no descriptor or mapping of the backing. */
    method RecordNoBacking(dev: int, ino: int, holds: bool, io: Io) returns (ok: bool)
      requires Valid()
      modifies this`history, log
      ensures Valid() && log.sealed == old(log.sealed) && log.tampered == old(log.tampered)
      ensures ok <==> !holds && old(log.Appends(Print(run, boot, Absent(dev, ino)), io))
      ensures log.poisoned <==> old(log.poisoned) || (!ok && !holds && !old(log.sealed))
      ensures history == (if ok then old(history) + [Absent(dev, ino)] else old(history)) && children == old(children)
    {
      hide EvidenceLog.Valid, EvidenceLog.Appends, EvidenceLog.OnDisk, Legal, LaunchesBelow, LaunchBelow, Print, Printed, ReleasedAfterBirth, Replay, FixtureFormat;
      if holds { return false; }
      ok := Note(Absent(dev, ino), io);
    }

    function Seen(pid: int, dev: int, ino: int, mapped: bool): Event
      requires pid in children
      reads this
    {
      Observed(children[pid].launch, children[pid].role, children[pid].birth, dev, ino, mapped)
    }

    /** A live child stably holds the backing. */
    method RecordChildBacking(pid: int, dev: int, ino: int, stable: bool, found: bool, mapped: bool, io: Io) returns (ok: bool)
      requires Valid()
      modifies this`history, log
      ensures Valid() && log.sealed == old(log.sealed) && log.tampered == old(log.tampered)
      ensures ok <==> && old(Awaits(pid, None)) && stable && found
                      && old(log.Appends(Print(run, boot, Seen(pid, dev, ino, mapped)), io))
      ensures log.poisoned <==> old(log.poisoned) || (!ok && old(Awaits(pid, None)) && stable && found)
      ensures history == (if ok then old(history) + [old(Seen(pid, dev, ino, mapped))] else old(history))
      ensures children == old(children)
    {
      hide EvidenceLog.Valid, EvidenceLog.Appends, EvidenceLog.OnDisk, Legal, LaunchesBelow, LaunchBelow, Print, Printed, ReleasedAfterBirth, Replay, FixtureFormat;
      if pid !in children || children[pid].status.Some? || !stable || !found { return false; }
      var c := children[pid];
      if log.poisoned {
        log.Closed(Print(run, boot, Seen(pid, dev, ino, mapped)), io);
        return false;
      }
      OwnPid(run, alnum, history, pid);
      SealedEnded(run, alnum, history);
      ok := Note(Observed(c.launch, c.role, c.birth, dev, ino, mapped), io);
    }

    function Closing(): Event
      reads this
    {
      Sealed(|children|, AllZero(children))
    }

    /** Close the roster. `anchored` is the outcome of the deployment's own seal. */
    method Seal(io: Io, anchored: bool) returns (ok: bool)
      requires Valid()
      modifies this`history, log
      ensures Valid() && log.tampered == old(log.tampered) && children == old(children)
      ensures old(log.poisoned || log.sealed) ==>
                !ok && history == old(history) && log.sealed == old(log.sealed) && log.poisoned == old(log.poisoned)
      // The roster is closed once every child was waited for and the seal is
      // on disk; the deployment's own seal decides whether the call succeeds.
      ensures log.sealed <==> old(log.sealed) || (AllEnded(children) && old(log.Appends(Print(run, boot, Closing()), io)))
      ensures history == (if log.sealed && !old(log.sealed) then old(history) + [Closing()] else old(history))
      // The seal counts the table, and its flag is set exactly when every raw
      // status the kernel reported is 0 or 128.
      ensures Closing().count == |children|
      ensures log.sealed && !old(log.sealed) ==> FlagTells(children, Closing().allZero)
      ensures ok <==> log.sealed && !old(log.sealed) && (requireBinding ==> bound && anchored)
      ensures log.poisoned <==> old(log.poisoned) || (!ok && !old(log.sealed) && AllEnded(children))
    {
      hide EvidenceLog.Valid, EvidenceLog.Appends, EvidenceLog.OnDisk, Legal, LaunchesBelow, LaunchBelow, Print, Printed, ReleasedAfterBirth, Replay, FixtureFormat;
      hide Durable, Stopped, Codec.Valid, Codec.CollisionFree, AllEnded, AllZero, FixtureFormat, FlagTells;
      if log.poisoned || log.sealed {
        log.Closed(Print(run, boot, Closing()), io);
        return false;
      }
      if !AllEnded(children) { return false; }
      SealSpeaks(children);
      var e := Sealed(|children|, AllZero(children));
      ok := log.Record(Print(run, boot, e), io);
      if !ok { return false; }
      Extend(run, boot, alnum, history, e);
      ReleasedSnoc(history, released, e);
      BelowSnoc(run, history, nextLaunch, e);
      history := history + [e];
      SealReplays(old(history), e);
      log.Seal();
      if requireBinding && (!bound || !anchored) {
        log.Poison();
        return false;
      }
    }
  }

  /** Of children whose 16-bit wait status is known, the flag says whether each
      of these is 0 or 128. */
  predicate FlagTells(m: map<int, Child>, flag: bool) {
    (forall p :: p in m ==> m[p].status.Some? && 0 <= m[p].status.value <= 0xffff) ==>
      (flag <==> forall p :: p in m ==> m[p].status == Some(0) || m[p].status == Some(128))
  }

  lemma SealSpeaks(m: map<int, Child>)
    requires AllEnded(m)
    ensures FlagTells(m, AllZero(m))
  {
    hide AllZero;
    if forall p :: p in m ==> 0 <= m[p].status.value <= 0xffff { AllZeroMeans(m); }
  }

  lemma LaunchStarts(run: string, k: nat)
    ensures run + "-" <= Launch(run, k)
  {
  }

  lemma ReleasedBorn(h: seq<Event>, released: set<string>, e: Event)
    requires ReleasedAfterBirth(h, released) && e.Born?
    ensures ReleasedAfterBirth(h + [e], released + {e.launch})
  {
    ReleasedSnoc(h, released, e);
  }

  lemma OwnPid(run: string, alnum: char -> bool, h: seq<Event>, pid: int)
    requires Legal(run, alnum, h) && pid in Replay(h)
    ensures Replay(h)[pid].birth.pid == pid
  {
    LegalIsLawful(run, alnum, h);
    ReplayGrounded(h);
  }

  /** Once sealed, every child of the table was waited for. */
  lemma SealedEnded(run: string, alnum: char -> bool, h: seq<Event>)
    requires Legal(run, alnum, h)
    ensures h != [] && h[|h| - 1].Sealed? ==> AllEnded(Replay(h))
  {
    if |h| > 1 { assert Allowed(run, alnum, h[..|h| - 1], h[|h| - 1]); }
  }

  lemma SealReplays(h: seq<Event>, e: Event)
    requires e.Sealed?
    ensures Replay(h + [e]) == Replay(h)
  {
    assert (h + [e])[..|h|] == h;
  }

  lemma ShortFormat()
    ensures |FixtureFormat().head| <= 64 && |FixtureFormat().genesis| == 64
  {
    ZerosLength(64);
  }

  /** Between any two calls, unless the log is poisoned or somebody else wrote
      to the files, the table is the replay of the journal on disk, and the
      reader gets back exactly the recorded events. */
  lemma TableIsReplayOfJournal(w: Witness)
    requires w.Valid() && !w.log.poisoned && !w.log.tampered && ShortHeads(w.log.codec)
    ensures var v := Verified(w.log.codec, w.log.fmt, w.log.journalFile, w.log.headFile);
            && v.Some? && Journal.Events(v.value) == Printed(w.run, w.boot, w.history)
            && w.children == ReplayFile(Journal.Events(v.value))
            && ReadEvents(w.run, w.boot, Journal.Events(v.value)) == Some(w.history)
  {
    hide Legal, Replay, Printed, LaunchesBelow, ReleasedAfterBirth, Verified, Codec.Valid, FramesFit, Stamp, Log, HeadBytes, ShortHeads, FixtureFormat;
    ShortFormat();
    HeadFits(w.log.codec, w.log.fmt, w.log.events);
    WriterAccepted(w.log.codec, w.log.fmt, w.log.events);
    FileReplays(w.run, w.boot, w.history);
    HistoryReadsBack(w.run, w.boot, w.history);
  }

  /** From the writer's bytes to the verdict: the sealed files of a witness
      pass the structure check, and the events read from them pass the roster
      check exactly when no pid was reused, every exit was normal and every
      backing identity is valid. */
  lemma SealedFilesAccepted(w: Witness, x: Expected, required: seq<Json>)
    requires w.Valid() && w.log.sealed && !w.log.poisoned && !w.log.tampered && ShortHeads(w.log.codec)
    requires x.run == w.run && x.boot == w.boot && x.alnum == w.alnum
    requires SealedRun(x, w.history) && FromRoster(w.history, required)
    ensures var v := Verified(w.log.codec, w.log.fmt, w.log.journalFile, w.log.headFile);
            && v.Some?
            && (GoodRoster(x, Journal.Events(v.value), required) <==>
                PidsDistinct(w.history) && ExitsNormal(w.history) && BackingsValid(w.history))
  {
    hide Witness.Valid, SealedRun, FromRoster, GoodRoster, PidsDistinct, ExitsNormal, BackingsValid, Verified;
    TableIsReplayOfJournal(w);
    SealedRunAccepted(x, w.history, required);
  }
}
