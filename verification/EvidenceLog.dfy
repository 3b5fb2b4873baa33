/** The single durable writer shared by both witnesses: it re-checks its own
    files before each append, appends one frame, then replaces the head. */
module EvidenceLogs {
  import opened Values
  import opened Journal

  /** What the operating system does during one append. Each entry of a
      `writes` list is the result of one `os.write`; running out of entries,
      or a `false` flag, is an exception raised at that point. */
  datatype Io = Io(identityOk: bool, journalWrites: seq<int>, journalSynced: bool,
                   truncated: bool, headWrites: seq<int>, headSynced: bool)

  /** How many of `n` bytes `write_all` gets out: it stops at a write that
      makes no progress. */
  function Written(writes: seq<int>, n: nat): (k: nat)
    ensures k <= n
  {
    if n == 0 || writes == [] || writes[0] <= 0 then 0
    else if writes[0] >= n then n
    else writes[0] + Written(writes[1..], n - writes[0])
  }

  /** The bytes taken by the writes up to the first that makes no progress. */
  function Progress(writes: seq<int>): nat {
    if writes == [] || writes[0] <= 0 then 0 else writes[0] + Progress(writes[1..])
  }

  /** `write_all` gets out all the progress the writes make, up to its data. */
  lemma {:induction false} WrittenIsProgress(writes: seq<int>, n: nat)
    ensures Written(writes, n) == if Progress(writes) < n then Progress(writes) else n
  {
    if n > 0 && writes != [] && 0 < writes[0] < n { WrittenIsProgress(writes[1..], n - writes[0]); }
  }

  predicate Completes(writes: seq<int>, n: nat) { Written(writes, n) == n }

  /** The checks made before an append, against the head held in memory. */
  predicate Intact(c: Codec, fmt: Format, headLimit: Option<nat>, h: Head, journal: bytes, head: bytes) {
    && |journal| == h.offset && head == HeadBytes(c, fmt, h)
    && (headLimit.Some? ==> |head| <= headLimit.value)
    && match ReadLines(c, fmt, SplitLines(journal))
       case None => false
       case Some(es) => |es| == h.seqno && Tip(c, fmt, es) == h.checksum
  }

  /** Tamper evidence: files that pass the checks are the files the writer
      left, unless the digest collides. */
  lemma IntactMeansUntouched(c: Codec, fmt: Format, headLimit: Option<nat>, events: seq<Json>, journal: bytes, head: bytes)
    requires c.Valid()
    requires Intact(c, fmt, headLimit, HeadOf(c, fmt, events), journal, head)
    ensures Durable(c, fmt, events, journal, head)
         || Clash(c, fmt, ReadLines(c, fmt, SplitLines(journal)).value, Stamp(events))
  {
    var es := ReadLines(c, fmt, SplitLines(journal)).value;
    ReadLinesExact(c, fmt, SplitLines(journal), es);
    SplitLossless(journal);
    TipAnchors(c, fmt, es, Stamp(events));
  }

  /** With one schema for head and frames, the checks are those of the reader:
      the files verify, and the head file is the one the writer remembers. */
  lemma IntactIsVerified(c: Codec, fmt: Format, events: seq<Json>, journal: bytes, head: bytes)
    requires c.Valid() && |Log(c, fmt, events)| <= MAX_LOG
    ensures Intact(c, fmt, Some(MAX_HEAD), HeadOf(c, fmt, events), journal, head) <==>
            head == HeadBytes(c, fmt, HeadOf(c, fmt, events)) && Verified(c, fmt, journal, head).Some?
  {
    hide ReadLines, SplitLines, Tip, Log;
    var h := HeadOf(c, fmt, events);
    if head == HeadBytes(c, fmt, h) { assert c.loads(head) == Some(HeadValue(fmt, h)); }
  }

  /** Conversely the writer's own files always pass. */
  lemma DurableIsIntact(c: Codec, fmt: Format, headLimit: Option<nat>, events: seq<Json>)
    requires c.Valid() && FramesFit(c, fmt, Stamp(events))
    requires headLimit.Some? ==> |HeadBytes(c, fmt, HeadOf(c, fmt, events))| <= headLimit.value
    ensures Intact(c, fmt, headLimit, HeadOf(c, fmt, events), Log(c, fmt, events), HeadBytes(c, fmt, HeadOf(c, fmt, events)))
  {
    var es := Stamp(events);
    StampNumbered(events);
    SplitLog(c, fmt, es);
    ReadLinesExact(c, fmt, SplitLines(Log(c, fmt, events)), es);
  }

  class EvidenceLog {
    const codec: Codec
    const fmt: Format
    const headLimit: Option<nat>
    var journalFile: bytes
    var headFile: bytes
    var head: Head
    var poisoned: bool
    var sealed: bool
    /** Everything recorded so far. */
    ghost var events: seq<Json>
    /** Somebody else has written to the files. */
    ghost var tampered: bool

    /** The head in memory is the head of the recorded events; the files hold
        those events unless an append failed or somebody else wrote to them. */
    ghost predicate Valid()
      reads this
    {
      && codec.Valid()
      && head == HeadOf(codec, fmt, events)
      && FramesFit(codec, fmt, Stamp(events)) && |Log(codec, fmt, events)| <= MAX_LOG
      && (!poisoned && !tampered ==> OnDisk())
    }

    ghost predicate OnDisk()
      reads this
    {
      Durable(codec, fmt, events, journalFile, headFile)
    }

    /** The frame that would record `event` next, and the head after it. */
    function NextFrame(event: Json): bytes
      reads this
    {
      Frame(codec, fmt, head.checksum, Entry(Num(head.seqno + 1), event))
    }

    function NextHead(event: Json): Head
      reads this
    {
      Head(head.seqno + 1, head.offset + |NextFrame(event)|,
           Checksum(codec, fmt, head.checksum, Entry(Num(head.seqno + 1), event)))
    }

    /** Exactly when an append succeeds. */
    predicate Appends(event: Json, io: Io)
      reads this
    {
      && !poisoned && !sealed && io.identityOk
      && Intact(codec, fmt, headLimit, head, journalFile, headFile)
      && |NextFrame(event)| <= MAX_FRAME && head.offset + |NextFrame(event)| <= MAX_LOG
      && Completes(io.journalWrites, |NextFrame(event)|) && io.journalSynced
      && io.truncated && Completes(io.headWrites, |HeadBytes(codec, fmt, NextHead(event))|) && io.headSynced
    }

    /** A poisoned or sealed log takes nothing more. */
    lemma Closed(event: Json, io: Io)
      requires poisoned || sealed
      ensures !Appends(event, io)
    {
    }

    constructor (codec: Codec, fmt: Format, headLimit: Option<nat>, headWrites: seq<int>, synced: bool)
      requires codec.Valid()
      ensures Valid() && this.codec == codec && this.fmt == fmt && this.headLimit == headLimit
      ensures events == [] && !sealed && !tampered
      ensures poisoned <==> !(Completes(headWrites, |HeadBytes(codec, fmt, Head(0, 0, fmt.genesis))|) && synced)
      ensures !poisoned ==> OnDisk()
    {
      this.codec, this.fmt, this.headLimit := codec, fmt, headLimit;
      journalFile, headFile := [], [];
      head := Head(0, 0, fmt.genesis);
      poisoned, sealed := false, false;
      events, tampered := [], false;
      new;
      assert Stamp([]) == [];
      var k := WriteOut(HeadBytes(codec, fmt, head), headWrites);
      headFile := HeadBytes(codec, fmt, head)[..k];
      if k < |HeadBytes(codec, fmt, head)| || !synced {
        poisoned := true;
      }
    }

    /** `write_all`: how many bytes reach the file before it stops. */
    static method WriteOut(data: bytes, writes: seq<int>) returns (k: nat)
      ensures k == Written(writes, |data|)
    {
      k := 0;
      var i := 0;
      while k < |data|
        invariant 0 <= i <= |writes| && k <= |data|
        invariant Written(writes, |data|) == k + Written(writes[i..], |data| - k)
        decreases |data| - k
      {
        if i == |writes| || writes[i] <= 0 { return; }
        assert writes[i..][1..] == writes[i + 1..];
        if |data| - k <= writes[i] { return |data|; }
        k, i := k + writes[i], i + 1;
      }
    }

    method Record(event: Json, io: Io) returns (ok: bool)
      requires Valid()
      modifies this
      ensures Valid() && sealed == old(sealed) && tampered == old(tampered)
      ensures ok <==> old(Appends(event, io))
      ensures events == if ok then old(events) + [event] else old(events)
      ensures !ok ==> head == old(head)
      // Poisoned stays poisoned; any failure of an available log poisons it.
      ensures poisoned <==> old(poisoned) || (!ok && !old(sealed))
      ensures old(poisoned || sealed) ==> !ok && journalFile == old(journalFile) && headFile == old(headFile)
      // Tamper evidence.
      ensures ok && codec.CollisionFree() ==> Durable(codec, fmt, old(events), old(journalFile), old(headFile))
      ensures ok && codec.CollisionFree() ==> OnDisk()
      // Append and crash points.
      ensures old(OnDisk()) && ok ==> OnDisk()
      ensures old(OnDisk()) ==> Stopped(codec, fmt, old(events), event, journalFile, headFile)
    {
      hide ReadLines, SplitLines, Lines, Tip, Frame, Checksum, Log, HeadBytes, Intact, Completes, Stamp, FramesFit, Wrote, Stopped;
      hide Codec.Valid, Codec.CollisionFree;
      ghost var j0, h0, before := journalFile, headFile, events;
      ok := Step(event, io);
      RecordOutcome(codec, fmt, headLimit, before, event, j0, h0, journalFile, headFile);
    }

    method Step(event: Json, io: Io) returns (ok: bool)
      modifies this
      ensures ok <==> old(Appends(event, io))
      ensures head == (if ok then old(NextHead(event)) else old(head)) && sealed == old(sealed) && tampered == old(tampered)
      ensures events == if ok then old(events) + [event] else old(events)
      ensures poisoned <==> old(poisoned) || (!ok && !old(sealed))
      ensures old(poisoned || sealed) ==> !ok && journalFile == old(journalFile) && headFile == old(headFile)
      ensures Wrote(old(NextFrame(event)), HeadBytes(codec, fmt, old(NextHead(event))), old(journalFile), old(headFile), journalFile, headFile)
      ensures ok ==> journalFile == old(journalFile) + old(NextFrame(event))
      ensures ok ==> headFile == HeadBytes(codec, fmt, old(NextHead(event)))
    {
      hide ReadLines, SplitLines, Tip, Frame, Checksum, HeadBytes, Intact, Completes, Wrote;
      assert Wrote(NextFrame(event), HeadBytes(codec, fmt, NextHead(event)), journalFile, headFile, journalFile, headFile) by {
        NothingWritten(NextFrame(event), HeadBytes(codec, fmt, NextHead(event)), journalFile, headFile);
      }
      ok := false;
      if !poisoned && !sealed {
        ok := Commit(event, io);
      }
      if ok {
        head, events := NextHead(event), events + [event];
      } else if !sealed {
        poisoned := true;
      }
    }

    /** The part of an append that touches the files. */
    method Commit(event: Json, io: Io) returns (ok: bool)
      requires !poisoned && !sealed
      modifies this`journalFile, this`headFile
      ensures ok <==> old(Appends(event, io))
      ensures Wrote(NextFrame(event), HeadBytes(codec, fmt, NextHead(event)), old(journalFile), old(headFile), journalFile, headFile)
      ensures ok ==> journalFile == old(journalFile) + NextFrame(event) && headFile == HeadBytes(codec, fmt, NextHead(event))
    {
      hide ReadLines, SplitLines, Tip, Frame, Checksum, HeadBytes, Intact, Written;
      var frame, target := NextFrame(event), NextHead(event);
      assert frame[..|frame|] == frame && HeadBytes(codec, fmt, target)[..|HeadBytes(codec, fmt, target)|] == HeadBytes(codec, fmt, target);
      if !io.identityOk || !Intact(codec, fmt, headLimit, head, journalFile, headFile)
         || |frame| > MAX_FRAME || head.offset + |frame| > MAX_LOG {
        return false;
      }
      ok := AppendFrame(frame, io);
      if ok {
        ok := WriteHead(target, io);
      }
    }

    method AppendFrame(frame: bytes, io: Io) returns (ok: bool)
      modifies this`journalFile
      ensures journalFile == old(journalFile) + frame[..Written(io.journalWrites, |frame|)]
      ensures ok <==> Completes(io.journalWrites, |frame|) && io.journalSynced
    {
      var k := WriteOut(frame, io.journalWrites);
      journalFile := journalFile + frame[..k];
      return k == |frame| && io.journalSynced;
    }

    method WriteHead(h: Head, io: Io) returns (ok: bool)
      modifies this`headFile
      ensures headFile == if io.truncated then HeadBytes(codec, fmt, h)[..Written(io.headWrites, |HeadBytes(codec, fmt, h)|)]
                          else old(headFile)
      ensures ok <==> io.truncated && Completes(io.headWrites, |HeadBytes(codec, fmt, h)|) && io.headSynced
    {
      if !io.truncated { return false; }
      var data := HeadBytes(codec, fmt, h);
      var k := WriteOut(data, io.headWrites);
      headFile := data[..k];
      return k == |data| && io.headSynced;
    }

    method Seal()
      requires Valid()
      modifies this`sealed
      ensures Valid() && sealed
    {
      sealed := true;
    }

    method Poison()
      requires Valid()
      modifies this`poisoned
      ensures Valid() && poisoned
    {
      poisoned := true;
    }

    /** Any other process writing to the two files. */
    method Tamper(journal: bytes, head: bytes)
      requires Valid()
      modifies this`journalFile, this`headFile, this`tampered
      ensures Valid() && journalFile == journal && headFile == head
    {
      journalFile, headFile, tampered := journal, head, true;
    }
  }

  /** What one more event does to the log, the head and the size limits. */
  lemma NextState(c: Codec, fmt: Format, events: seq<Json>, event: Json)
    ensures var h := HeadOf(c, fmt, events);
            var e := Entry(Num(h.seqno + 1), event);
            var frame := Frame(c, fmt, h.checksum, e);
            && Log(c, fmt, events + [event]) == Log(c, fmt, events) + frame
            && HeadOf(c, fmt, events + [event]) == Head(h.seqno + 1, h.offset + |frame|, Checksum(c, fmt, h.checksum, e))
            && (FramesFit(c, fmt, Stamp(events + [event])) <==> FramesFit(c, fmt, Stamp(events)) && |frame| <= MAX_FRAME)
  {
    LogSnoc(c, fmt, events, event);
    StampSnoc(events, event);
    FitSnoc(c, fmt, Stamp(events), Entry(Num(|events| + 1), event));
  }

  /** The files moved only forward: part of the frame with the head as it was,
      or the whole frame with part of the new head. */
  predicate Wrote(frame: bytes, newHead: bytes, j0: bytes, h0: bytes, j1: bytes, h1: bytes) {
    || (j0 <= j1 <= j0 + frame && h1 == h0)
    || (j1 == j0 + frame && h1 <= newHead)
  }

  lemma NothingWritten(frame: bytes, newHead: bytes, j: bytes, h: bytes)
    ensures Wrote(frame, newHead, j, h, j, h)
  {
  }

  lemma RecordOutcome(c: Codec, fmt: Format, headLimit: Option<nat>, events: seq<Json>, event: Json,
                      j0: bytes, h0: bytes, j1: bytes, h1: bytes)
    requires c.Valid()
    ensures var h := HeadOf(c, fmt, events);
            var e := Entry(Num(h.seqno + 1), event);
            var frame := Frame(c, fmt, h.checksum, e);
            var target := Head(h.seqno + 1, h.offset + |frame|, Checksum(c, fmt, h.checksum, e));
            && HeadOf(c, fmt, events + [event]) == target
            && |Log(c, fmt, events + [event])| == |Log(c, fmt, events)| + |frame|
            && (FramesFit(c, fmt, Stamp(events + [event])) <==> FramesFit(c, fmt, Stamp(events)) && |frame| <= MAX_FRAME)
            && (Durable(c, fmt, events, j0, h0) && Wrote(frame, HeadBytes(c, fmt, target), j0, h0, j1, h1) ==>
                  Stopped(c, fmt, events, event, j1, h1))
            && (Durable(c, fmt, events, j0, h0) && j1 == j0 + frame && h1 == HeadBytes(c, fmt, target) ==>
                  Durable(c, fmt, events + [event], j1, h1))
            && (Intact(c, fmt, headLimit, h, j0, h0) && c.CollisionFree() ==> Durable(c, fmt, events, j0, h0))
  {
    NextState(c, fmt, events, event);
    if Intact(c, fmt, headLimit, HeadOf(c, fmt, events), j0, h0) {
      UntouchedIfCollisionFree(c, fmt, headLimit, events, j0, h0);
    }
  }

  lemma UntouchedIfCollisionFree(c: Codec, fmt: Format, headLimit: Option<nat>, events: seq<Json>, journal: bytes, head: bytes)
    requires c.Valid()
    requires Intact(c, fmt, headLimit, HeadOf(c, fmt, events), journal, head)
    ensures c.CollisionFree() ==> Durable(c, fmt, events, journal, head)
  {
    IntactMeansUntouched(c, fmt, headLimit, events, journal, head);
    if c.CollisionFree() {
      NoClash(c, fmt, ReadLines(c, fmt, SplitLines(journal)).value, Stamp(events));
    }
  }
}
