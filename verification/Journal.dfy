/** The hash-chained witness journal and its head file: the bytes the writer
    produces, the reader that re-checks them, and what a reader can conclude. */
module Journal {
  import opened Values

  const MAX_LOG: nat := 16 * 1024 * 1024
  const MAX_FRAME: nat := 8192
  const MAX_HEAD: nat := 4096

  /** The schema strings stamped into the head file and into every frame, and
      the checksum the chain starts from. */
  datatype Format = Format(head: string, frame: string, genesis: string)

  /** A frame's sequence tag as it stands in the file, and its event. */
  datatype Entry = Entry(tag: Json, event: Json)

  datatype Head = Head(seqno: nat, offset: nat, checksum: string)

  // ---------------------------------------------------------------- writing

  function Material(fmt: Format, previous: string, e: Entry): Json {
    MaterialObj(Str(fmt.frame), e.tag, Str(previous), e.event)
  }

  function Checksum(c: Codec, fmt: Format, previous: string, e: Entry): string {
    c.sha256(c.dumps(Material(fmt, previous, e)))
  }

  function FrameValue(c: Codec, fmt: Format, previous: string, e: Entry): Json {
    FrameObj(Str(fmt.frame), e.tag, Str(previous), e.event, Str(Checksum(c, fmt, previous, e)))
  }

  function Frame(c: Codec, fmt: Format, previous: string, e: Entry): bytes {
    c.Line(FrameValue(c, fmt, previous, e))
  }

  /** The running checksum after the given entries. */
  function Tip(c: Codec, fmt: Format, es: seq<Entry>): string {
    if es == [] then fmt.genesis
    else Checksum(c, fmt, Tip(c, fmt, es[..|es| - 1]), es[|es| - 1])
  }

  function Lines(c: Codec, fmt: Format, es: seq<Entry>): seq<bytes> {
    if es == [] then []
    else Lines(c, fmt, es[..|es| - 1]) + [Frame(c, fmt, Tip(c, fmt, es[..|es| - 1]), es[|es| - 1])]
  }

  function Flatten(lines: seq<bytes>): bytes {
    if lines == [] then [] else Flatten(lines[..|lines| - 1]) + lines[|lines| - 1]
  }

  function LogBytes(c: Codec, fmt: Format, es: seq<Entry>): bytes {
    Flatten(Lines(c, fmt, es))
  }

  function HeadValue(fmt: Format, h: Head): Json {
    HeadObj(Str(fmt.head), Num(h.seqno), Num(h.offset), Str(h.checksum))
  }

  function HeadBytes(c: Codec, fmt: Format, h: Head): bytes { c.Line(HeadValue(fmt, h)) }

  /** The entries a writer stamps: tags are the integers 1, 2, 3, ... */
  function Stamp(events: seq<Json>): (es: seq<Entry>)
    ensures |es| == |events|
  {
    if events == [] then []
    else Stamp(events[..|events| - 1]) + [Entry(Num(|events|), events[|events| - 1])]
  }

  function Events(es: seq<Entry>): (events: seq<Json>)
    ensures |events| == |es|
  {
    if es == [] then [] else Events(es[..|es| - 1]) + [es[|es| - 1].event]
  }

  function Log(c: Codec, fmt: Format, events: seq<Json>): bytes { LogBytes(c, fmt, Stamp(events)) }

  function HeadOf(c: Codec, fmt: Format, events: seq<Json>): Head {
    Head(|events|, |Log(c, fmt, events)|, Tip(c, fmt, Stamp(events)))
  }

  // ---------------------------------------------------------------- reading

  /** Length of the first line, terminator included (`bytes.splitlines`
      breaks after LF, CR and CR LF). */
  function LineLength(data: bytes): (k: nat)
    requires data != []
    ensures 0 < k <= |data|
  {
    if data[0] == NL then 1
    else if data[0] == CR then (if |data| > 1 && data[1] == NL then 2 else 1)
    else if |data| == 1 then 1
    else 1 + LineLength(data[1..])
  }

  function SplitLines(data: bytes): seq<bytes> {
    if data == [] then []
    else [data[..LineLength(data)]] + SplitLines(data[LineLength(data)..])
  }

  /** One turn of the reader's loop: line number `seqno` under the running
      checksum `previous`; None is a raised error. */
  function ReadFrame(c: Codec, fmt: Format, line: bytes, seqno: nat, previous: string): Option<Entry> {
    if line == [] || line[|line| - 1] != NL || |line| > MAX_FRAME then None
    else
      match c.loads(line)
      case Some(FrameObj(schema, seq', prev, event, checksum)) =>
        if c.Line(FrameObj(schema, seq', prev, event, checksum)) != line then None
        else if schema != Str(fmt.frame) || !PyEqInt(seq', seqno) || prev != Str(previous) then None
        else if checksum != Str(c.sha256(c.dumps(MaterialObj(schema, seq', prev, event)))) then None
        else Some(Entry(seq', event))
      case _ => None
  }

  function ReadLines(c: Codec, fmt: Format, lines: seq<bytes>): Option<seq<Entry>> {
    if lines == [] then Some([])
    else
      match ReadLines(c, fmt, lines[..|lines| - 1])
      case None => None
      case Some(es) =>
        match ReadFrame(c, fmt, lines[|lines| - 1], |lines|, Tip(c, fmt, es))
        case None => None
        case Some(e) => Some(es + [e])
  }

  /** The head file as a JSON object, if it is one and is printed canonically. */
  function ReadHead(c: Codec, fmt: Format, head: bytes): (r: Option<Json>)
    ensures r.Some? ==> r.value.HeadObj?
  {
    if |head| > MAX_HEAD then None
    else
      match c.loads(head)
      case Some(v) =>
        if v.HeadObj? && c.Line(v) == head && v.schema == Str(fmt.head) then Some(v) else None
      case None => None
  }

  /** The whole reader: what it returns for a journal and a head file. */
  function Verified(c: Codec, fmt: Format, journal: bytes, head: bytes): Option<seq<Entry>> {
    match ReadHead(c, fmt, head)
    case None => None
    case Some(h) =>
      if |journal| > MAX_LOG || !PyEqInt(h.offset, |journal|) then None
      else
        match ReadLines(c, fmt, SplitLines(journal))
        case None => None
        case Some(es) =>
          if PyEqInt(h.seqno, |es|) && h.checksum == Str(Tip(c, fmt, es)) then Some(es) else None
  }

  /** The loop over the journal's lines. */
  method VerifyChain(c: Codec, fmt: Format, journal: bytes) returns (r: Option<seq<Json>>, tip: string)
    ensures match ReadLines(c, fmt, SplitLines(journal))
            case None => r == None
            case Some(es) => r == Some(Events(es)) && tip == Tip(c, fmt, es)
  {
    hide ReadFrame, Frame, SplitLines, PyEqInt;
    var lines := SplitLines(journal);
    var previous, events := fmt.genesis, [];
    ghost var es: seq<Entry> := [];
    for i := 0 to |lines|
      invariant ReadLines(c, fmt, lines[..i]) == Some(es)
      invariant events == Events(es) && previous == Tip(c, fmt, es)
    {
      ghost var before := lines[..i + 1];
      assert before[..i] == lines[..i];
      var frame := ReadFrame(c, fmt, lines[i], i + 1, previous);
      if frame == None {
        RejectSticks(c, fmt, lines, i + 1);
        return None, previous;
      }
      ghost var was := es;
      es := es + [frame.value];
      assert es[..|es| - 1] == was;
      FrameFields(c, fmt, lines[i], i + 1, previous);
      previous := c.loads(lines[i]).value.checksum.s;
      events := events + [frame.value.event];
    }
    assert lines[..|lines|] == lines;
    return Some(events), previous;
  }

  method VerifyStructure(c: Codec, fmt: Format, journal: bytes, head: bytes) returns (r: Option<seq<Json>>)
    ensures match Verified(c, fmt, journal, head)
            case None => r == None
            case Some(es) => r == Some(Events(es))
  {
    if |head| > MAX_HEAD || |journal| > MAX_LOG { return None; }
    var h := ReadHead(c, fmt, head);
    if h == None { return None; }
    if !PyEqInt(h.value.offset, |journal|) { return None; }
    var events, tip := VerifyChain(c, fmt, journal);
    if events == None || !PyEqInt(h.value.seqno, |events.value|) || h.value.checksum != Str(tip) { return None; }
    return events;
  }

  // ------------------------------------------------- line splitting

  lemma {:induction false} FirstLine(x: bytes, rest: bytes)
    requires forall i :: 0 <= i < |x| ==> x[i] != NL && x[i] != CR
    ensures LineLength(x + [NL] + rest) == |x| + 1
  {
    if x != [] {
      assert (x + [NL] + rest)[1..] == x[1..] + [NL] + rest;
      FirstLine(x[1..], rest);
    }
  }

  lemma {:induction false} FirstLineStays(a: bytes, rest: bytes)
    requires a != [] && a[|a| - 1] == NL
    ensures LineLength(a + rest) == LineLength(a)
    ensures a[LineLength(a)..] == [] || a[LineLength(a)..][|a| - LineLength(a) - 1] == NL
  {
    if a[0] != NL && a[0] != CR {
      assert (a + rest)[1..] == a[1..] + rest;
      FirstLineStays(a[1..], rest);
    }
  }

  /** Appending one printed line appends one line. */
  lemma {:induction false} SplitAppend(a: bytes, x: bytes)
    requires a == [] || a[|a| - 1] == NL
    requires forall i :: 0 <= i < |x| ==> x[i] != NL && x[i] != CR
    ensures SplitLines(a + (x + [NL])) == SplitLines(a) + [x + [NL]]
    decreases |a|
  {
    hide LineLength;
    var line := x + [NL];
    if a == [] {
      OneLine(x);
      assert a + line == line;
    } else {
      FirstLineStays(a, line);
      var k := LineLength(a);
      assert (a + line)[..k] == a[..k] && (a + line)[k..] == a[k..] + line;
      SplitAppend(a[k..], x);
      assert a[k..] + (x + [NL]) == a[k..] + line;
    }
  }

  lemma OneLine(x: bytes)
    requires forall i :: 0 <= i < |x| ==> x[i] != NL && x[i] != CR
    ensures SplitLines(x + [NL]) == [x + [NL]]
  {
    hide LineLength;
    FirstLine(x, []);
    var line := x + [NL];
    assert line + [] == line;
    assert line[..|line|] == line && line[|line|..] == [];
  }

  lemma {:induction false} FlattenCons(line: bytes, lines: seq<bytes>)
    ensures Flatten([line] + lines) == line + Flatten(lines)
  {
    if lines == [] {
      assert [line] + lines == [line];
      assert [line][..0] == [];
    } else {
      assert ([line] + lines)[..|lines|] == [line] + lines[..|lines| - 1];
      FlattenCons(line, lines[..|lines| - 1]);
    }
  }

  lemma {:induction false} SplitLossless(data: bytes)
    ensures Flatten(SplitLines(data)) == data
  {
    if data != [] {
      var k := LineLength(data);
      SplitLossless(data[k..]);
      FlattenCons(data[..k], SplitLines(data[k..]));
    }
  }

  lemma {:induction false} SplitLog(c: Codec, fmt: Format, es: seq<Entry>)
    requires c.Valid()
    ensures SplitLines(LogBytes(c, fmt, es)) == Lines(c, fmt, es)
    ensures es != [] ==> LogBytes(c, fmt, es) != [] && LogBytes(c, fmt, es)[|LogBytes(c, fmt, es)| - 1] == NL
  {
    if es != [] {
      var front := es[..|es| - 1];
      SplitLog(c, fmt, front);
      var ls := Lines(c, fmt, es);
      assert ls[..|ls| - 1] == Lines(c, fmt, front);
      SplitAppend(LogBytes(c, fmt, front), c.dumps(FrameValue(c, fmt, Tip(c, fmt, front), es[|es| - 1])));
    }
  }

  // ------------------------------------------------- what the reader accepts

  /** The i-th tag compares equal to i + 1, and every frame is within the limit. */
  ghost predicate Numbered(es: seq<Entry>) {
    forall i :: 0 <= i < |es| ==> PyEqInt(es[i].tag, i + 1)
  }

  ghost predicate FramesFit(c: Codec, fmt: Format, es: seq<Entry>) {
    es != [] ==>
      && FramesFit(c, fmt, es[..|es| - 1])
      && |Frame(c, fmt, Tip(c, fmt, es[..|es| - 1]), es[|es| - 1])| <= MAX_FRAME
  }

  lemma FrameFields(c: Codec, fmt: Format, line: bytes, seqno: nat, previous: string)
    requires ReadFrame(c, fmt, line, seqno, previous).Some?
    ensures var e := ReadFrame(c, fmt, line, seqno, previous).value;
            c.loads(line) == Some(FrameValue(c, fmt, previous, e)) && line == Frame(c, fmt, previous, e)
  {
  }

  /** A line is accepted exactly when it is the frame the writer would print
      for that entry at that place in the chain. */
  lemma ReadFrameExact(c: Codec, fmt: Format, line: bytes, seqno: nat, previous: string, e: Entry)
    requires c.Valid()
    ensures ReadFrame(c, fmt, line, seqno, previous) == Some(e) <==>
            line == Frame(c, fmt, previous, e) && PyEqInt(e.tag, seqno) && |line| <= MAX_FRAME
  {
    if line == Frame(c, fmt, previous, e) {
      assert c.loads(line) == Some(FrameValue(c, fmt, previous, e));
    }
  }

  lemma {:induction false} RejectSticks(c: Codec, fmt: Format, lines: seq<bytes>, k: nat)
    requires k <= |lines| && ReadLines(c, fmt, lines[..k]) == None
    ensures ReadLines(c, fmt, lines) == None
    decreases |lines|
  {
    if k == |lines| {
      assert lines[..k] == lines;
    } else {
      assert lines[..|lines| - 1][..k] == lines[..k];
      RejectSticks(c, fmt, lines[..|lines| - 1], k);
    }
  }

  lemma {:induction false} ReadLinesExact(c: Codec, fmt: Format, lines: seq<bytes>, es: seq<Entry>)
    requires c.Valid()
    ensures ReadLines(c, fmt, lines) == Some(es) <==>
            lines == Lines(c, fmt, es) && Numbered(es) && FramesFit(c, fmt, es)
    decreases |lines|
  {
    hide ReadFrame, Frame, Tip, PyEqInt, Codec.Valid;
    LinesLength(c, fmt, es);
    if lines != [] && es != [] {
      var n := |lines|;
      var front, e := es[..|es| - 1], es[|es| - 1];
      ReadLinesExact(c, fmt, lines[..n - 1], front);
      ReadFrameExact(c, fmt, lines[n - 1], n, Tip(c, fmt, front), e);
      assert es == front + [e] && lines == lines[..n - 1] + [lines[n - 1]];
      if ReadLines(c, fmt, lines) == Some(es) {
        var es' := ReadLines(c, fmt, lines[..n - 1]).value;
        assert es'+ [e] == es;
        assert es' == front;
        ReadLinesLength(c, fmt, lines);
        FitSnoc(c, fmt, front, e);
      } else if lines == Lines(c, fmt, es) && Numbered(es) && FramesFit(c, fmt, es) {
        FitSnoc(c, fmt, front, e);
      }
    } else {
      ReadLinesLength(c, fmt, lines);
    }
  }

  lemma FitSnoc(c: Codec, fmt: Format, front: seq<Entry>, e: Entry)
    ensures FramesFit(c, fmt, front + [e]) <==>
            FramesFit(c, fmt, front) && |Frame(c, fmt, Tip(c, fmt, front), e)| <= MAX_FRAME
    ensures Numbered(front + [e]) <==> Numbered(front) && PyEqInt(e.tag, |front| + 1)
  {
    var es := front + [e];
    assert es[..|es| - 1] == front;
    assert forall i :: 0 <= i < |front| ==> es[i] == front[i];
    assert es[|front|] == e;
  }

  lemma {:induction false} LinesLength(c: Codec, fmt: Format, es: seq<Entry>)
    ensures |Lines(c, fmt, es)| == |es|
  {
    if es != [] { LinesLength(c, fmt, es[..|es| - 1]); }
  }

  lemma {:induction false} ReadLinesLength(c: Codec, fmt: Format, lines: seq<bytes>)
    ensures ReadLines(c, fmt, lines).Some? ==> |ReadLines(c, fmt, lines).value| == |lines|
  {
    if lines != [] { ReadLinesLength(c, fmt, lines[..|lines| - 1]); }
  }

  /** The head file says: this many bytes, this many entries, this checksum. */
  ghost predicate HeadAnchors(c: Codec, fmt: Format, head: bytes, journal: bytes, es: seq<Entry>) {
    exists h: Json ::
      && head == c.Line(h) && |head| <= MAX_HEAD && h.HeadObj? && h.schema == Str(fmt.head)
      && PyEqInt(h.offset, |journal|) && PyEqInt(h.seqno, |es|) && h.checksum == Str(Tip(c, fmt, es))
  }

  /** The reader accepts exactly the writer's image: a journal that is the
      printed chain of the entries it returns, under a head that anchors it. */
  lemma VerifiedExact(c: Codec, fmt: Format, journal: bytes, head: bytes, es: seq<Entry>)
    requires c.Valid()
    ensures Verified(c, fmt, journal, head) == Some(es) <==>
            && journal == LogBytes(c, fmt, es) && |journal| <= MAX_LOG
            && Numbered(es) && FramesFit(c, fmt, es)
            && HeadAnchors(c, fmt, head, journal, es)
  {
    hide ReadLines, SplitLines, Lines, Tip, FramesFit, Flatten, Numbered, PyEqInt;
    var lines := SplitLines(journal);
    SplitLossless(journal);
    SplitLog(c, fmt, es);
    ReadLinesExact(c, fmt, lines, es);
    if HeadAnchors(c, fmt, head, journal, es) {
      var h: Json :| head == c.Line(h) && h.HeadObj? && h.schema == Str(fmt.head)
        && PyEqInt(h.offset, |journal|) && PyEqInt(h.seqno, |es|) && h.checksum == Str(Tip(c, fmt, es));
      assert c.loads(head) == Some(h);
    }
  }

  // ------------------------------------------------- the head anchors history

  /** Two different materials with the same digest, at the same place of two
      chains. */
  ghost predicate Clash(c: Codec, fmt: Format, es: seq<Entry>, fs: seq<Entry>) {
    exists i :: && 0 <= i < |es| && i < |fs| && ClashAt(c, fmt, es, fs, i)
  }

  ghost predicate ClashAt(c: Codec, fmt: Format, es: seq<Entry>, fs: seq<Entry>, i: nat)
    requires i < |es| && i < |fs|
  {
    var a := c.dumps(Material(fmt, Tip(c, fmt, es[..i]), es[i]));
    var b := c.dumps(Material(fmt, Tip(c, fmt, fs[..i]), fs[i]));
    a != b && c.sha256(a) == c.sha256(b)
  }

  lemma NoClash(c: Codec, fmt: Format, es: seq<Entry>, fs: seq<Entry>)
    requires c.CollisionFree()
    ensures !Clash(c, fmt, es, fs)
  {
  }

  lemma {:induction false} TipAnchors(c: Codec, fmt: Format, es: seq<Entry>, fs: seq<Entry>)
    requires c.Valid()
    requires |es| == |fs| && Tip(c, fmt, es) == Tip(c, fmt, fs)
    ensures es == fs || Clash(c, fmt, es, fs)
  {
    if es != [] {
      var n := |es| - 1;
      var m1 := Material(fmt, Tip(c, fmt, es[..n]), es[n]);
      var m2 := Material(fmt, Tip(c, fmt, fs[..n]), fs[n]);
      if c.dumps(m1) != c.dumps(m2) {
        assert ClashAt(c, fmt, es, fs, n);
      } else {
        c.DumpsInjective(m1, m2);
        TipAnchors(c, fmt, es[..n], fs[..n]);
        if Clash(c, fmt, es[..n], fs[..n]) {
          var i :| 0 <= i < n && ClashAt(c, fmt, es[..n], fs[..n], i);
          assert es[..n][..i] == es[..i] && fs[..n][..i] == fs[..i];
          assert ClashAt(c, fmt, es, fs, i);
        } else {
          assert es == es[..n] + [es[n]] && fs == fs[..n] + [fs[n]];
        }
      }
    }
  }

  /** Any two journals accepted under one head file are the same bytes, unless
      the digest collides on two of their own frames: no edit, swap,
      insertion or lost tail can go unnoticed. */
  lemma HeadAnchorsHistory(c: Codec, fmt: Format, head: bytes, j1: bytes, j2: bytes, es: seq<Entry>, fs: seq<Entry>)
    requires c.Valid()
    requires Verified(c, fmt, j1, head) == Some(es) && Verified(c, fmt, j2, head) == Some(fs)
    ensures (j1 == j2 && es == fs) || Clash(c, fmt, es, fs)
  {
    hide Verified, Lines, Tip, FramesFit, Flatten, Numbered, Clash;
    VerifiedExact(c, fmt, j1, head, es);
    VerifiedExact(c, fmt, j2, head, fs);
    TipAnchors(c, fmt, es, fs);
  }

  // ------------------------------------------------- the writer is accepted

  lemma {:induction false} StampNumbered(events: seq<Json>)
    ensures Numbered(Stamp(events)) && Events(Stamp(events)) == events
  {
    if events != [] {
      var n := |events| - 1;
      StampNumbered(events[..n]);
      var es := Stamp(events);
      assert es[..n] == Stamp(events[..n]);
      assert forall i :: 0 <= i < n ==> es[i] == Stamp(events[..n])[i];
    }
  }

  lemma StampSnoc(events: seq<Json>, e: Json)
    ensures Stamp(events + [e]) == Stamp(events) + [Entry(Num(|events| + 1), e)]
  {
    assert (events + [e])[..|events|] == events;
  }

  /** The log grows by exactly the new frame. */
  lemma LogSnoc(c: Codec, fmt: Format, events: seq<Json>, e: Json)
    ensures var f := Frame(c, fmt, Tip(c, fmt, Stamp(events)), Entry(Num(|events| + 1), e));
            && Log(c, fmt, events + [e]) == Log(c, fmt, events) + f
            && Tip(c, fmt, Stamp(events + [e])) == Checksum(c, fmt, Tip(c, fmt, Stamp(events)), Entry(Num(|events| + 1), e))
  {
    StampSnoc(events, e);
    var es := Stamp(events + [e]);
    assert es[..|es| - 1] == Stamp(events);
    var ls := Lines(c, fmt, es);
    assert ls[..|ls| - 1] == Lines(c, fmt, Stamp(events));
  }

  /** What the size checks of the writer and the reader bound. */
  ghost predicate Fits(c: Codec, fmt: Format, events: seq<Json>) {
    && FramesFit(c, fmt, Stamp(events)) && |Log(c, fmt, events)| <= MAX_LOG
    && |HeadBytes(c, fmt, HeadOf(c, fmt, events))| <= MAX_HEAD
  }

  /** Every log the writer produces is accepted and reads back as the exact
      event list. */
  lemma WriterAccepted(c: Codec, fmt: Format, events: seq<Json>)
    requires c.Valid() && Fits(c, fmt, events)
    ensures Verified(c, fmt, Log(c, fmt, events), HeadBytes(c, fmt, HeadOf(c, fmt, events))) == Some(Stamp(events))
    ensures Events(Stamp(events)) == events
  {
    hide Verified, ReadLines, SplitLines, Lines, Tip, FramesFit, Flatten, Numbered, Stamp, Events, Codec.Valid;
    StampNumbered(events);
    var journal, h := Log(c, fmt, events), HeadOf(c, fmt, events);
    assert HeadAnchors(c, fmt, HeadBytes(c, fmt, h), journal, Stamp(events)) by {
      assert HeadBytes(c, fmt, h) == c.Line(HeadValue(fmt, h));
    }
    VerifiedExact(c, fmt, journal, HeadBytes(c, fmt, h), Stamp(events));
  }

  /** Sequence tags are compared loosely: a chain whose first tag is `true`
      is accepted too, so acceptance does not imply the writer's own tags. */
  lemma LooseTagAccepted(c: Codec, fmt: Format, event: Json)
    requires c.Valid()
    requires var es := [Entry(Bool(true), event)];
             && FramesFit(c, fmt, es) && |LogBytes(c, fmt, es)| <= MAX_LOG
             && |HeadBytes(c, fmt, Head(1, |LogBytes(c, fmt, es)|, Tip(c, fmt, es)))| <= MAX_HEAD
    ensures var es := [Entry(Bool(true), event)];
            && Verified(c, fmt, LogBytes(c, fmt, es), HeadBytes(c, fmt, Head(1, |LogBytes(c, fmt, es)|, Tip(c, fmt, es)))) == Some(es)
            && es != Stamp(Events(es))
  {
    hide ReadLines, SplitLines, FramesFit, Verified, Flatten;
    var es := [Entry(Bool(true), event)];
    var journal := LogBytes(c, fmt, es);
    var h := Head(1, |journal|, Tip(c, fmt, es));
    assert HeadAnchors(c, fmt, HeadBytes(c, fmt, h), journal, es) by {
      assert HeadBytes(c, fmt, h) == c.Line(HeadValue(fmt, h));
    }
    VerifiedExact(c, fmt, journal, HeadBytes(c, fmt, h), es);
    assert Stamp(Events(es))[0].tag == Num(1);
  }

  /** Every tag is an integer, as the writer prints it. */
  predicate IntegerTags(es: seq<Entry>) { forall i :: 0 <= i < |es| ==> es[i].tag.Num? }

  lemma {:induction false} StampedIff(es: seq<Entry>)
    requires Numbered(es)
    ensures es == Stamp(Events(es)) <==> IntegerTags(es)
  {
    if es != [] {
      var n := |es| - 1;
      var front, last := es[..n], es[n];
      assert es == front + [last];
      assert forall i :: 0 <= i < n ==> front[i] == es[i];
      StampedIff(front);
      assert Events(es) == Events(front) + [last.event];
      StampSnoc(Events(front), last.event);
      hide Stamp, Events;
      assert es == Stamp(Events(front)) + [Entry(Num(n + 1), last.event)] <==>
             front == Stamp(Events(front)) && last == Entry(Num(n + 1), last.event) by {
        SnocEqual(front, last, Stamp(Events(front)), Entry(Num(n + 1), last.event));
      }
    }
  }

  lemma SnocEqual(a: seq<Entry>, x: Entry, b: seq<Entry>, y: Entry)
    requires |a| == |b|
    ensures a + [x] == b + [y] <==> a == b && x == y
  {
    assert (a + [x])[..|a|] == a && (b + [y])[..|b|] == b;
    assert (a + [x])[|a|] == x && (b + [y])[|b|] == y;
  }

  /** Which accepted files a writer can have left: those whose tags are
      integers and, for the head file too, whose head counts with integers. */
  lemma AcceptedIsWritten(c: Codec, fmt: Format, journal: bytes, head: bytes, es: seq<Entry>)
    requires c.Valid() && Verified(c, fmt, journal, head) == Some(es)
    ensures es == Stamp(Events(es)) <==> IntegerTags(es)
    ensures ReadHead(c, fmt, head).Some?
    ensures Durable(c, fmt, Events(es), journal, head) <==>
            && IntegerTags(es)
            && ReadHead(c, fmt, head).value.offset.Num? && ReadHead(c, fmt, head).value.seqno.Num?
  {
    hide ReadLines, SplitLines, Lines, Tip, FramesFit, Flatten, Numbered, Stamp, Events;
    VerifiedExact(c, fmt, journal, head, es);
    StampedIff(es);
    var h := ReadHead(c, fmt, head).value;
    if IntegerTags(es) {
      if h.offset.Num? && h.seqno.Num? {
        assert h == HeadValue(fmt, HeadOf(c, fmt, Events(es)));
      }
    }
    if Durable(c, fmt, Events(es), journal, head) {
      SplitLog(c, fmt, es);
      SplitLog(c, fmt, Stamp(Events(es)));
      SameLines(c, fmt, es, Stamp(Events(es)));
      var g := HeadValue(fmt, HeadOf(c, fmt, Events(es)));
      assert c.loads(c.Line(g)) == Some(g);
    }
  }

  // ------------------------------------------------- the size of a head

  /** The hex digest has 64 characters, and the printed head of a log within
      the limits is short. */
  ghost predicate ShortHeads(c: Codec) {
    && (forall d: bytes :: |c.sha256(d)| == 64)
    && (forall schema: string, h: Head :: |schema| <= 64 && h.seqno <= h.offset <= MAX_LOG && |h.checksum| == 64 ==>
          |c.Line(HeadObj(Str(schema), Num(h.seqno), Num(h.offset), Str(h.checksum)))| <= MAX_HEAD)
  }

  lemma {:induction false} LogSize(c: Codec, fmt: Format, es: seq<Entry>)
    ensures |es| <= |LogBytes(c, fmt, es)|
  {
    if es != [] {
      var n := |es| - 1;
      LogSize(c, fmt, es[..n]);
      var ls := Lines(c, fmt, es);
      assert ls[..|ls| - 1] == Lines(c, fmt, es[..n]);
    }
  }

  lemma HeadFits(c: Codec, fmt: Format, events: seq<Json>)
    requires ShortHeads(c) && |fmt.head| <= 64 && |fmt.genesis| == 64 && |Log(c, fmt, events)| <= MAX_LOG
    ensures |HeadBytes(c, fmt, HeadOf(c, fmt, events))| <= MAX_HEAD
  {
    hide Lines, Flatten;
    LogSize(c, fmt, Stamp(events));
  }

  // ------------------------------------------------- crash consistency

  /** The files after the append of `e` stopped somewhere: inside the journal
      write, with the head untouched; or, the journal being complete, after
      the head was truncated and part of the new head was written. */
  ghost predicate Stopped(c: Codec, fmt: Format, events: seq<Json>, e: Json, journal: bytes, head: bytes) {
    var next := events + [e];
    || (&& Log(c, fmt, events) <= journal <= Log(c, fmt, next)
        && head == HeadBytes(c, fmt, HeadOf(c, fmt, events)))
    || (&& journal == Log(c, fmt, next)
        && head <= HeadBytes(c, fmt, HeadOf(c, fmt, next)))
  }

  ghost predicate Durable(c: Codec, fmt: Format, events: seq<Json>, journal: bytes, head: bytes) {
    journal == Log(c, fmt, events) && head == HeadBytes(c, fmt, HeadOf(c, fmt, events))
  }

  /** Wherever the append stops, the reader rejects the pair or reads exactly
      the old log or exactly the new one. */
  lemma CrashConsistent(c: Codec, fmt: Format, events: seq<Json>, e: Json, journal: bytes, head: bytes)
    requires c.Valid()
    requires Stopped(c, fmt, events, e, journal, head)
    ensures match Verified(c, fmt, journal, head)
            case None => true
            case Some(es) =>
              || (Durable(c, fmt, events, journal, head) && Events(es) == events)
              || (Durable(c, fmt, events + [e], journal, head) && Events(es) == events + [e])
  {
    if Durable(c, fmt, events, journal, head) {
      DurableReads(c, fmt, events, journal, head);
    } else if Durable(c, fmt, events + [e], journal, head) {
      DurableReads(c, fmt, events + [e], journal, head);
    } else if head == HeadBytes(c, fmt, HeadOf(c, fmt, events)) {
      LogSnoc(c, fmt, events, e);
      assert Log(c, fmt, events) <= journal;
      StaleHead(c, fmt, events, journal);
    } else {
      TornHead(c, fmt, HeadOf(c, fmt, events + [e]), journal, head);
    }
  }

  lemma DurableReads(c: Codec, fmt: Format, events: seq<Json>, journal: bytes, head: bytes)
    requires c.Valid() && Durable(c, fmt, events, journal, head)
    ensures Verified(c, fmt, journal, head).Some? ==> Events(Verified(c, fmt, journal, head).value) == events
  {
    var v := Verified(c, fmt, journal, head);
    if v.Some? {
      VerifiedExact(c, fmt, journal, head, v.value);
      SameLog(c, fmt, events, v.value);
    }
  }

  /** The old head over a longer journal is rejected by the length check. */
  lemma StaleHead(c: Codec, fmt: Format, events: seq<Json>, journal: bytes)
    requires c.Valid()
    requires |journal| != |Log(c, fmt, events)|
    ensures Verified(c, fmt, journal, HeadBytes(c, fmt, HeadOf(c, fmt, events))) == None
  {
    var h := HeadOf(c, fmt, events);
    assert c.loads(HeadBytes(c, fmt, h)) == Some(HeadValue(fmt, h));
  }

  /** A head file cut short is rejected whatever the journal holds. */
  lemma TornHead(c: Codec, fmt: Format, h: Head, journal: bytes, head: bytes)
    requires c.Valid()
    requires head < HeadBytes(c, fmt, h)
    ensures Verified(c, fmt, journal, head) == None
  {
    if c.loads(head).Some? {
      c.TornLine(HeadValue(fmt, h), c.loads(head).value, |head|);
      assert head == HeadBytes(c, fmt, h)[..|head|];
    }
  }

  lemma SameLog(c: Codec, fmt: Format, events: seq<Json>, es: seq<Entry>)
    requires c.Valid()
    requires Log(c, fmt, events) == LogBytes(c, fmt, es) && Numbered(es) && FramesFit(c, fmt, es)
    ensures Events(es) == events
  {
    SplitLog(c, fmt, es);
    SplitLog(c, fmt, Stamp(events));
    SameLines(c, fmt, Stamp(events), es);
    StampNumbered(events);
  }

  lemma {:induction false} SameLines(c: Codec, fmt: Format, es: seq<Entry>, fs: seq<Entry>)
    requires c.Valid()
    requires Lines(c, fmt, es) == Lines(c, fmt, fs)
    ensures es == fs
  {
    LinesLength(c, fmt, es);
    LinesLength(c, fmt, fs);
    if es != [] {
      var n := |es| - 1;
      var l1, l2 := Lines(c, fmt, es), Lines(c, fmt, fs);
      assert l1[..n] == Lines(c, fmt, es[..n]) && l2[..n] == Lines(c, fmt, fs[..n]);
      SameLines(c, fmt, es[..n], fs[..n]);
      var p := Tip(c, fmt, es[..n]);
      c.LineInjective(FrameValue(c, fmt, p, es[n]), FrameValue(c, fmt, p, fs[n]));
      assert es == es[..n] + [es[n]] && fs == fs[..n] + [fs[n]];
    }
  }
}
