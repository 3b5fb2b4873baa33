/** The trust slot: one file that is filled once before any child is launched
    and rewritten once to anchor the sealed head of the witness evidence. */
module TrustSlots {
  import opened Values
  import opened Journal
  import opened EvidenceLogs
  import opened Roster

  const BINDING_SCHEMA: string := "uflow-ddr-witness-binding-fixture-v2"
  const MAX_SLOT: nat := 4096
  const PENDING: Json := Str("pending")

  type Inode = (int, int)

  /** What a reader finds around the slot: the bootstrap's pinned values, the
      inodes of the broker and evidence files, and the digest of the file at
      an absolute canonical path (None for any other path). */
  datatype Site = Site(host: string, domain: string, boot: string, revision: int, genesisDigest: string,
                       brokerJournal: Inode, brokerHead: Inode, evidenceJournal: Inode, evidenceHead: Inode,
                       fileDigest: string -> Option<string>, alnum: char -> bool)

  predicate SameInode(v: Json, id: Inode) {
    v.Arr? && |v.items| == 2 && PyEqInt(v.items[0], id.0) && PyEqInt(v.items[1], id.1)
  }

  predicate PinnedCode(site: Site, path: Json, digest: Json) {
    path.Str? && site.fileDigest(path.s).Some? && digest == Str(site.fileDigest(path.s).value)
  }

  /** The checks of a binding against its surroundings. */
  predicate BindingFits(site: Site, b: Json) {
    && b.BindingObj? && b.schema == Str(BINDING_SCHEMA)
    && b.host == Str(site.host) && b.domain == Str(site.domain) && b.boot == Str(site.boot)
    && PyEqInt(b.capRevision, site.revision)
    && SameInode(b.brokerJournal, site.brokerJournal) && SameInode(b.brokerHead, site.brokerHead)
    && b.initialHead == Str(site.genesisDigest)
    && b.brokerInstance.Str? && ShortToken(site.alnum, b.brokerInstance.s) && Count(b.lifecycleEpoch)
    && PinnedCode(site, b.codePath, b.code) && PinnedCode(site, b.interpreterPath, b.interpreter)
    && PinnedCode(site, b.pinPath, b.pin) && PinnedCode(site, b.childPath, b.child)
    && SameInode(b.evidenceJournal, site.evidenceJournal) && SameInode(b.evidenceHead, site.evidenceHead)
  }

  datatype Field = FType | FRunId | FBootId | FWitnessBirth | FCode | FInterpreter

  predicate IsObject(e: Json) {
    !e.Null? && !e.Bool? && !e.Num? && !e.Whole? && !e.Str? && !e.Arr?
  }

  function Lookup(members: map<string, Json>, name: string): Json {
    if name in members then members[name] else Null
  }

  /** Python's `e.get(name)` on a JSON object. */
  function Get(e: Json, f: Field): Json {
    var started := e.StartObj? || e.BrokerStartObj?;
    var child := e.ChildBirthObj? || e.ChildWaitObj? || e.NoBackingObj? || e.ObservedObj?;
    match f
    case FType => if started || child || e.SealObj? then e.kind else if e.Obj? then Lookup(e.members, "type") else Null
    case FRunId => if started || child || e.SealObj? || e.BindingObj? then e.runId
                   else if e.Obj? then Lookup(e.members, "run_id") else Null
    case FBootId => if started || child then e.bootId else if e.Obj? then Lookup(e.members, "boot_id") else Null
    case FWitnessBirth => if started || e.BindingObj? then e.witnessBirth
                          else if e.Obj? then Lookup(e.members, "witness_birth") else Null
    case FCode => if started || e.BindingObj? then e.code
                  else if e.Obj? then Lookup(e.members, "witness_code_sha256") else Null
    case FInterpreter => if started || e.BindingObj? then e.interpreter
                         else if e.Obj? then Lookup(e.members, "interpreter_sha256") else Null
  }

  /** The first event names the pinned witness. */
  predicate StartFits(b: Json, start: Json) {
    && b.BindingObj? && IsObject(start) && PyEq(Get(start, FRunId), b.runId) && PyEq(Get(start, FBootId), b.boot)
    && PyEq(Get(start, FWitnessBirth), b.witnessBirth) && PyEq(Get(start, FCode), b.code)
    && PyEq(Get(start, FInterpreter), b.interpreter)
  }

  predicate IsSeal(e: Json) { IsObject(e) && Get(e, FType) == Str("witness_seal") }

  /** A slot that is no longer pending must carry the digest of the head file,
      and the log must end with a seal. */
  predicate AnchorFits(c: Codec, b: Json, head: bytes, es: seq<Entry>) {
    b.BindingObj? && (b.sealedHead == PENDING ||
      (b.sealedHead == Str(c.sha256(head)) && |head| <= MAX_SLOT && es != [] && IsSeal(es[|es| - 1].event)))
  }

  /** The binding in the slot, if the slot is one canonical line. */
  function ReadSlot(c: Codec, slot: bytes): (r: Option<Json>)
    ensures r.Some? ==> r.value.BindingObj? && slot == c.Line(r.value)
  {
    if |slot| > MAX_SLOT then None
    else
      match c.loads(slot)
      case Some(b) => if b.BindingObj? && c.Line(b) == slot then Some(b) else None
      case None => None
  }

  /** The whole reader: the binding and the evidence it vouches for. */
  function ReadPinned(c: Codec, fmt: Format, site: Site, slot: bytes, journal: bytes, head: bytes): Option<(Json, seq<Entry>)> {
    match ReadSlot(c, slot)
    case None => None
    case Some(b) =>
      if !BindingFits(site, b) then None
      else
        match Verified(c, fmt, journal, head)
        case None => None
        case Some(es) =>
          if es != [] && AnchorFits(c, b, head, es) && StartFits(b, es[0].event) then Some((b, es)) else None
  }

  /** The outside world during one attempt to fill or rewrite the slot:
      locking, surroundings, and the write itself. */
  datatype SlotEnv = SlotEnv(locked: bool, site: Option<Site>, sameFiles: bool,
                             truncated: bool, writes: seq<int>, synced: bool)

  /** What the deployment asks to pin. */
  datatype Request = Request(run: string, broker: string, epoch: int, codePath: string, interpreterPath: string,
                             pinPath: string, childPath: string, evidenceDir: string)

  predicate Digests(site: Site, req: Request) {
    && site.fileDigest(req.codePath).Some? && site.fileDigest(req.interpreterPath).Some?
    && site.fileDigest(req.pinPath).Some? && site.fileDigest(req.childPath).Some?
  }

  /** The start event is that of the live witness running the pinned code. */
  predicate LiveStart(site: Site, req: Request, live: Json, start: Json) {
    && Digests(site, req) && IsObject(start) && Get(start, FType) == Str("witness_start")
    && PyEq(Get(start, FWitnessBirth), live) && Get(start, FRunId) == Str(req.run) && Get(start, FBootId) == Str(site.boot)
    && Get(start, FCode) == Str(site.fileDigest(req.codePath).value)
    && Get(start, FInterpreter) == Str(site.fileDigest(req.interpreterPath).value)
  }

  function InodeValue(id: Inode): Json { Arr([Num(id.0), Num(id.1)]) }

  function DigestOf(site: Site, path: string): Json {
    match site.fileDigest(path) case Some(d) => Str(d) case None => Null
  }

  function MakeBinding(site: Site, req: Request, start: Json): (b: Json)
    ensures b.BindingObj? && b.sealedHead == PENDING
  {
    BindingObj(Str(BINDING_SCHEMA), Str(req.run), Str(site.host), Str(site.domain), Str(site.boot), Num(site.revision),
               Str(req.broker), Num(req.epoch), InodeValue(site.brokerJournal), InodeValue(site.brokerHead),
               Str(site.genesisDigest), Get(start, FWitnessBirth), Get(start, FCode), Str(req.codePath),
               Str(req.interpreterPath), Get(start, FInterpreter), Str(req.pinPath), DigestOf(site, req.pinPath),
               Str(req.childPath), DigestOf(site, req.childPath), PENDING, Str(req.evidenceDir),
               InodeValue(site.evidenceJournal), InodeValue(site.evidenceHead))
  }

  /** The binding pinned for the evidence found in the two files. */
  function PinnedBinding(site: Site, req: Request, c: Codec, fmt: Format, journal: bytes, head: bytes): Json {
    match Verified(c, fmt, journal, head)
    case Some(es) => if es != [] then MakeBinding(site, req, es[0].event) else Null
    case None => Null
  }

  /** Everything that must hold before the slot is filled. */
  predicate PinReady(c: Codec, fmt: Format, slot: bytes, req: Request, live: Json, journal: bytes, head: bytes,
                     ready: bool, genesis: bool, env: SlotEnv) {
    && env.locked && ready && genesis && slot == [] && env.sameFiles && env.site.Some?
    && ShortToken(env.site.value.alnum, req.broker) && req.epoch >= 0
    && (match Verified(c, fmt, journal, head)
        case None => false
        case Some(es) => |es| == 1 && LiveStart(env.site.value, req, live, es[0].event))
    && |c.Line(PinnedBinding(env.site.value, req, c, fmt, journal, head))| <= MAX_SLOT
  }

  /** Everything that must hold before the slot is rewritten. */
  predicate SealReady(c: Codec, fmt: Format, slot: bytes, initial: Json, journal: bytes, head: bytes, env: SlotEnv) {
    && env.locked && env.site.Some? && env.sameFiles && env.truncated
    && var r := ReadPinned(c, fmt, env.site.value, slot, journal, head);
    && r.Some? && PyEq(r.value.0, initial) && r.value.0.BindingObj? && r.value.0.sealedHead == PENDING && IsSeal(LastEvent(r))
    && |c.Line(Anchored(c, r.value.0, head))| <= MAX_SLOT
  }

  /** Pinning then reading, under the same surroundings, gives the binding back. */
  lemma PinReadsBack(c: Codec, fmt: Format, site: Site, req: Request, live: Json, journal: bytes, head: bytes)
    requires c.Valid() && ShortToken(site.alnum, req.broker) && req.epoch >= 0
    requires match Verified(c, fmt, journal, head)
             case None => false
             case Some(es) => |es| == 1 && LiveStart(site, req, live, es[0].event)
    requires |c.Line(PinnedBinding(site, req, c, fmt, journal, head))| <= MAX_SLOT
    ensures var b := PinnedBinding(site, req, c, fmt, journal, head);
            ReadPinned(c, fmt, site, c.Line(b), journal, head) == Some((b, Verified(c, fmt, journal, head).value))
  {
    hide Verified, MakeBinding, BindingFits, StartFits, LiveStart, ShortToken;
    var b := PinnedBinding(site, req, c, fmt, journal, head);
    MadeBindingFits(site, req, live, Verified(c, fmt, journal, head).value[0].event);
    assert c.loads(c.Line(b)) == Some(b);
  }

  lemma MadeBindingFits(site: Site, req: Request, live: Json, start: Json)
    requires ShortToken(site.alnum, req.broker) && req.epoch >= 0 && LiveStart(site, req, live, start)
    ensures BindingFits(site, MakeBinding(site, req, start)) && StartFits(MakeBinding(site, req, start), start)
  {
    MadeBindingReads(site, req, live, start);
    MadeStartFits(site, req, live, start);
  }

  lemma MadeBindingReads(site: Site, req: Request, live: Json, start: Json)
    requires ShortToken(site.alnum, req.broker) && req.epoch >= 0 && LiveStart(site, req, live, start)
    ensures BindingFits(site, MakeBinding(site, req, start))
  {
    hide Get, IsObject, ShortToken, PyEq, Plain;
  }

  lemma MadeStartFits(site: Site, req: Request, live: Json, start: Json)
    requires LiveStart(site, req, live, start)
    ensures StartFits(MakeBinding(site, req, start), start)
  {
    hide Get, IsObject, Plain;
  }

  /** The binding to write, if the slot may be filled at all. */
  method PlanPin(c: Codec, fmt: Format, slot: bytes, req: Request, live: Json, journal: bytes, head: bytes,
                 ready: bool, genesis: bool, env: SlotEnv) returns (r: Option<Json>)
    ensures r.Some? <==> PinReady(c, fmt, slot, req, live, journal, head, ready, genesis, env)
    ensures r.Some? ==> r.value == PinnedBinding(env.site.value, req, c, fmt, journal, head)
  {
    hide Verified, LiveStart, ShortToken, MakeBinding, Codec.Line;
    if !env.locked || !ready || !genesis || slot != [] || !env.sameFiles || env.site == None { return None; }
    var site := env.site.value;
    if !ShortToken(site.alnum, req.broker) || req.epoch < 0 { return None; }
    var events := VerifyStructure(c, fmt, journal, head);
    FirstEvent(c, fmt, journal, head);
    if events == None || |events.value| != 1 || !LiveStart(site, req, live, events.value[0]) { return None; }
    var binding := MakeBinding(site, req, events.value[0]);
    if |c.Line(binding)| > MAX_SLOT { return None; }
    return Some(binding);
  }

  lemma PlanReads(c: Codec, fmt: Format, slot: bytes, req: Request, live: Json, journal: bytes, head: bytes,
                  ready: bool, genesis: bool, env: SlotEnv)
    requires c.Valid() && PinReady(c, fmt, slot, req, live, journal, head, ready, genesis, env)
    ensures slot == [] && env.site.Some? && Verified(c, fmt, journal, head).Some?
    ensures var b := PinnedBinding(env.site.value, req, c, fmt, journal, head);
            && b.BindingObj? && b.sealedHead == PENDING && |c.Line(b)| <= MAX_SLOT
            && ReadPinned(c, fmt, env.site.value, c.Line(b), journal, head) == Some((b, Verified(c, fmt, journal, head).value))
  {
    hide Verified, LiveStart, ShortToken, MakeBinding, ReadPinned, Codec.Line, Codec.Valid;
    PinReadsBack(c, fmt, env.site.value, req, live, journal, head);
  }

  class TrustSlot {
    const codec: Codec
    const fmt: Format
    var slot: bytes

    ghost predicate Valid()
      reads this
    {
      codec.Valid()
    }

    constructor (codec: Codec, fmt: Format)
      requires codec.Valid()
      ensures Valid() && slot == [] && this.codec == codec && this.fmt == fmt
    {
      this.codec, this.fmt, slot := codec, fmt, [];
    }

    /** Fill an empty slot with a pending binding. `ready` says that the
        witness asks for a binding and has launched nothing, `genesis` that the
        authority is clean and at its first head, and `live` is the birth
        record of the running witness. */
    method Pin(req: Request, live: Json, log: EvidenceLog, ready: bool, genesis: bool, env: SlotEnv) returns (ok: bool)
      requires Valid() && log.codec == codec && log.fmt == fmt
      modifies this
      ensures Valid() && Attempt(codec, old(slot), slot)
      ensures old(PinReady(codec, fmt, slot, req, live, log.journalFile, log.headFile, ready, genesis, env)) ==>
                var data := codec.Line(PinnedBinding(env.site.value, req, codec, fmt, log.journalFile, log.headFile));
                slot == data[..Written(env.writes, |data|)] && (ok <==> Completes(env.writes, |data|) && env.synced)
      ensures !old(PinReady(codec, fmt, slot, req, live, log.journalFile, log.headFile, ready, genesis, env)) ==>
                !ok && slot == old(slot)
      // The slot reads back, under the same surroundings, as what was pinned.
      ensures ok ==> Verified(codec, fmt, log.journalFile, log.headFile).Some?
      ensures ok ==> ReadPinned(codec, fmt, env.site.value, slot, log.journalFile, log.headFile)
                     == Some((PinnedBinding(env.site.value, req, codec, fmt, log.journalFile, log.headFile),
                              Verified(codec, fmt, log.journalFile, log.headFile).value))
    {
      hide PinReady, Verified, Written, ReadPinned, PinnedBinding, Codec.Valid, Attempt;
      AttemptNothing(codec, slot);
      var plan := PlanPin(codec, fmt, slot, req, live, log.journalFile, log.headFile, ready, genesis, env);
      if plan == None { return false; }
      PlanReads(codec, fmt, slot, req, live, log.journalFile, log.headFile, ready, genesis, env);
      var data := codec.Line(plan.value);
      var k := EvidenceLog.WriteOut(data, env.writes);
      slot := data[..k];
      AttemptPin(codec, plan.value, k);
      assert k == |data| ==> data[..k] == data;
      return k == |data| && env.synced;
    }

    /** Rewrite a pending slot so that it anchors the sealed head; `initial` is
        the binding that was pinned. */
    method Seal(initial: Json, log: EvidenceLog, env: SlotEnv) returns (ok: bool)
      requires Valid() && log.codec == codec && log.fmt == fmt
      modifies this
      ensures Valid() && Attempt(codec, old(slot), slot)
      ensures old(SealReady(codec, fmt, slot, initial, log.journalFile, log.headFile, env)) ==>
                var data := codec.Line(Anchored(codec, ReadSlot(codec, old(slot)).value, log.headFile));
                slot == data[..Written(env.writes, |data|)] && (ok <==> Completes(env.writes, |data|) && env.synced)
      ensures !old(SealReady(codec, fmt, slot, initial, log.journalFile, log.headFile, env)) ==> !ok && slot == old(slot)
    {
      hide Verified, StartFits, Written, BindingFits, AnchorFits, Codec.Valid, IsSeal, LastEvent, Attempt, PyEq, Plain;
      AttemptNothing(codec, slot);
      if !env.locked || env.site == None { return false; }
      var r := ReadPinned(codec, fmt, env.site.value, slot, log.journalFile, log.headFile);
      if r == None || !PyEq(r.value.0, initial) || r.value.0.sealedHead != PENDING || !IsSeal(LastEvent(r)) || !env.sameFiles {
        return false;
      }
      var b := r.value.0;
      var data := codec.Line(Anchored(codec, b, log.headFile));
      if |data| > MAX_SLOT || !env.truncated { return false; }
      slot := [];
      var k := EvidenceLog.WriteOut(data, env.writes);
      AttemptSeal(codec, old(slot), b, log.headFile, k);
      slot := data[..k];
      return k == |data| && env.synced;
    }
  }

  lemma AttemptNothing(c: Codec, slot: bytes)
    ensures Attempt(c, slot, slot)
  {
  }

  lemma AttemptPin(c: Codec, b: Json, k: nat)
    requires b.BindingObj? && b.sealedHead == PENDING && k <= |c.Line(b)| <= MAX_SLOT
    ensures Attempt(c, [], c.Line(b)[..k])
  {
    assert PinWrites(c, [], c.Line(b)[..k], b);
  }

  lemma AttemptSeal(c: Codec, slot: bytes, b: Json, head: bytes, k: nat)
    requires ReadSlot(c, slot) == Some(b) && b.BindingObj? && b.sealedHead == PENDING
    requires k <= |c.Line(Anchored(c, b, head))| <= MAX_SLOT
    ensures Attempt(c, slot, c.Line(Anchored(c, b, head))[..k])
  {
    assert SealWrites(c, slot, c.Line(Anchored(c, b, head))[..k], b, head);
  }

  /** The binding with the digest of the head file in place of "pending". */
  function Anchored(c: Codec, b: Json, head: bytes): Json
    requires b.BindingObj?
  {
    b.(sealedHead := Str(c.sha256(head)))
  }

  function LastEvent(r: Option<(Json, seq<Entry>)>): Json {
    if r.Some? && r.value.1 != [] then r.value.1[|r.value.1| - 1].event else Null
  }

  lemma FirstEvent(c: Codec, fmt: Format, journal: bytes, head: bytes)
    ensures match Verified(c, fmt, journal, head)
            case None => true
            case Some(es) => |es| == 1 ==> Events(es) == [es[0].event]
  {
    hide Verified;
    match Verified(c, fmt, journal, head)
    case None =>
    case Some(es) => if |es| == 1 { assert es[..0] == []; }
  }

  // ---------------------------------------------------------------- what the slot guarantees

  /** Two readings of one anchored slot, at any two times and places, return
      the same journal, head and events, unless the digest collides on their
      heads or their frames. */
  lemma SealedSlotPinsEvidence(c: Codec, fmt: Format, slot: bytes, s1: Site, s2: Site,
                               j1: bytes, h1: bytes, j2: bytes, h2: bytes)
    requires c.Valid()
    requires ReadSlot(c, slot).Some? && ReadSlot(c, slot).value.sealedHead != PENDING
    requires ReadPinned(c, fmt, s1, slot, j1, h1).Some? && ReadPinned(c, fmt, s2, slot, j2, h2).Some?
    ensures var es, fs := ReadPinned(c, fmt, s1, slot, j1, h1).value.1, ReadPinned(c, fmt, s2, slot, j2, h2).value.1;
            || (h1 == h2 && j1 == j2 && es == fs)
            || (h1 != h2 && c.sha256(h1) == c.sha256(h2))
            || Clash(c, fmt, es, fs)
  {
    hide Verified, Clash, BindingFits, StartFits, IsSeal;
    var es, fs := ReadPinned(c, fmt, s1, slot, j1, h1).value.1, ReadPinned(c, fmt, s2, slot, j2, h2).value.1;
    if h1 == h2 {
      HeadAnchorsHistory(c, fmt, h1, j1, j2, es, fs);
    }
  }

  /** Once `Seal` has anchored a head, any later reading either fails or
      returns exactly the sealed events (digest collisions apart). */
  lemma ReadsBackSealedEvents(c: Codec, fmt: Format, initial: Json, s1: Site, s2: Site,
                              journal: bytes, head: bytes, j2: bytes, h2: bytes)
    requires c.Valid() && initial.BindingObj? && initial.sealedHead == PENDING
    requires var r := ReadPinned(c, fmt, s1, c.Line(initial), journal, head); r.Some? && IsSeal(LastEvent(r))
    ensures var sealed := c.Line(Anchored(c, initial, head));
            var es := ReadPinned(c, fmt, s1, c.Line(initial), journal, head).value.1;
            match ReadPinned(c, fmt, s2, sealed, j2, h2)
            case None => true
            case Some((b, fs)) => || (fs == es && j2 == journal && h2 == head && b == Anchored(c, initial, head))
                                  || (h2 != head && c.sha256(h2) == c.sha256(head))
                                  || Clash(c, fmt, es, fs)
  {
    hide Verified, Clash, BindingFits, StartFits;
    var b := Anchored(c, initial, head);
    var sealed := c.Line(b);
    var r, r2 := ReadPinned(c, fmt, s1, c.Line(initial), journal, head), ReadPinned(c, fmt, s2, sealed, j2, h2);
    assert c.loads(c.Line(initial)) == Some(initial) && c.loads(sealed) == Some(b);
    assert b.sealedHead != PENDING by { NotPending(c.sha256(head)); }
    if r2.Some? && h2 == head {
      HeadAnchorsHistory(c, fmt, head, journal, j2, r.value.1, r2.value.1);
    }
  }

  lemma NotPending(digest: string)
    requires |digest| >= 64
    ensures Str(digest) != PENDING
  {
    assert |"pending"| == 7;
  }

  /** A slot cut short by a crash is never read as a binding. */
  lemma TornSlotUnreadable(c: Codec, fmt: Format, b: Json, slot: bytes, site: Site, journal: bytes, head: bytes)
    requires c.Valid() && slot < c.Line(b)
    ensures ReadPinned(c, fmt, site, slot, journal, head) == None
  {
    hide Verified, BindingFits, AnchorFits, StartFits;
    if c.loads(slot).Some? {
      c.TornLine(b, c.loads(slot).value, |slot|);
      assert slot == c.Line(b)[..|slot|];
    }
  }

  // ---------------------------------------------------------------- the life of the slot

  datatype Phase = Unbound | Bound(binding: Json) | Anchor(binding: Json) | Torn

  function PhaseOf(c: Codec, slot: bytes): Phase {
    if slot == [] then Unbound
    else match ReadSlot(c, slot)
         case None => Torn
         case Some(b) => if b.sealedHead == PENDING then Bound(b) else Anchor(b)
  }

  /** `Pin` writes some or all of a pending binding into an empty slot. */
  predicate PinWrites(c: Codec, before: bytes, after: bytes, b: Json) {
    && b.BindingObj? && b.sealedHead == PENDING && |c.Line(b)| <= MAX_SLOT
    && before == [] && after <= c.Line(b)
  }

  /** `Seal` rewrites the slot with some or all of the anchored binding. */
  predicate SealWrites(c: Codec, before: bytes, after: bytes, b: Json, head: bytes) {
    && b.BindingObj? && b.sealedHead == PENDING && before == c.Line(b) && |before| <= MAX_SLOT
    && |c.Line(Anchored(c, b, head))| <= MAX_SLOT && after <= c.Line(Anchored(c, b, head))
  }

  /** One attempt on the slot, successful, refused or interrupted. */
  ghost predicate Attempt(c: Codec, before: bytes, after: bytes) {
    || after == before
    || (exists b :: PinWrites(c, before, after, b))
    || (exists b, head :: SealWrites(c, before, after, b, head))
  }

  /** An attempt whose write, if any, was not cut short. */
  ghost predicate WholeAttempt(c: Codec, before: bytes, after: bytes) {
    || after == before
    || (exists b :: PinWrites(c, before, after, b) && after == c.Line(b))
    || (exists b, head :: SealWrites(c, before, after, b, head) && after == c.Line(Anchored(c, b, head)))
  }

  lemma PhaseOfLine(c: Codec, b: Json)
    requires c.Valid() && b.BindingObj? && |c.Line(b)| <= MAX_SLOT
    ensures PhaseOf(c, c.Line(b)) == if b.sealedHead == PENDING then Bound(b) else Anchor(b)
  {
    assert c.loads(c.Line(b)) == Some(b);
  }

  lemma PhaseOfTorn(c: Codec, b: Json, slot: bytes)
    requires c.Valid() && slot < c.Line(b)
    ensures PhaseOf(c, slot) == if slot == [] then Unbound else Torn
  {
    if c.loads(slot).Some? {
      c.TornLine(b, c.loads(slot).value, |slot|);
      assert slot == c.Line(b)[..|slot|];
    }
  }

  /** What one attempt can do: an anchored or torn slot is never written again,
      an unbound one becomes bound or torn, and a bound one becomes anchored
      to the same binding, torn, or, when the crash falls between the
      truncation and the first written byte, unbound again. */
  lemma AttemptMoves(c: Codec, before: bytes, after: bytes)
    requires c.Valid() && Attempt(c, before, after) && after != before
    ensures match PhaseOf(c, before)
            case Unbound => PhaseOf(c, after).Bound? || PhaseOf(c, after).Torn?
            case Bound(b) => || PhaseOf(c, after).Torn?
                             || (PhaseOf(c, after).Unbound? && after == [])
                             || (exists head :: PhaseOf(c, after) == Anchor(Anchored(c, b, head)))
            case _ => false
  {
    if b :| PinWrites(c, before, after, b) {
      if after == c.Line(b) { PhaseOfLine(c, b); } else { PhaseOfTorn(c, b, after); }
    } else {
      var b, head :| SealWrites(c, before, after, b, head);
      SealMoves(c, before, after, b, head);
    }
  }

  lemma SealMoves(c: Codec, before: bytes, after: bytes, b: Json, head: bytes)
    requires c.Valid() && SealWrites(c, before, after, b, head) && after != before
    ensures PhaseOf(c, before) == Bound(b)
    ensures var new' := c.Line(Anchored(c, b, head));
            PhaseOf(c, after) == if after == new' then Anchor(Anchored(c, b, head)) else if after == [] then Unbound else Torn
  {
    var a := Anchored(c, b, head);
    NotPending(c.sha256(head));
    PhaseOfLine(c, b);
    if after == c.Line(a) { PhaseOfLine(c, a); } else { PhaseOfTorn(c, a, after); }
  }

  function Rank(c: Codec, slot: bytes): nat {
    match PhaseOf(c, slot)
    case Unbound => 0
    case Bound(_) => 1
    case Anchor(_) => 2
    case Torn => 3
  }

  /** The slot contents over a run in which no write is cut short. */
  ghost predicate WholeRun(c: Codec, slots: seq<bytes>) {
    forall i :: 0 <= i < |slots| - 1 ==> WholeAttempt(c, slots[i], slots[i + 1])
  }

  /** In such a run the slot only moves from unbound to bound to anchored, and
      once anchored its bytes never change. */
  lemma {:induction false} SlotOnlyAdvances(c: Codec, slots: seq<bytes>, i: int, j: int)
    requires c.Valid() && WholeRun(c, slots) && 0 <= i <= j < |slots| && slots[0] == []
    ensures Rank(c, slots[i]) <= Rank(c, slots[j]) <= 2
    ensures Rank(c, slots[i]) == Rank(c, slots[j]) ==> slots[i] == slots[j]
    decreases j
  {
    hide Rank, WholeAttempt;
    if j == 0 {
      EmptyRank(c);
    } else if i < j {
      SlotOnlyAdvances(c, slots, i, j - 1);
      WholeMoves(c, slots[j - 1], slots[j]);
    } else {
      SlotOnlyAdvances(c, slots, i - 1, i - 1);
      WholeMoves(c, slots[j - 1], slots[j]);
    }
  }

  lemma EmptyRank(c: Codec)
    ensures Rank(c, []) == 0
  {
  }

  lemma WholeMoves(c: Codec, before: bytes, after: bytes)
    requires c.Valid() && WholeAttempt(c, before, after)
    ensures after == before || (Rank(c, before) < Rank(c, after) <= 2)
  {
    hide ReadSlot, PhaseOf;
    EmptyRank(c);
    if after != before {
      if b :| PinWrites(c, before, after, b) && after == c.Line(b) {
        PhaseOfLine(c, b);
      } else {
        var b, head :| SealWrites(c, before, after, b, head) && after == c.Line(Anchored(c, b, head));
        SealMoves(c, before, after, b, head);
      }
    }
  }

  /** What an interrupted seal leaves, told from the writes alone: unbound if
      the first write makes no progress, torn if the writes stop in the middle,
      anchored if they complete. So the promise "unbound, bound, anchored" fails
      exactly for the first of these. */
  lemma InterruptedSealUnbinds(c: Codec, b: Json, head: bytes, writes: seq<int>)
    requires c.Valid() && b.BindingObj? && b.sealedHead == PENDING && |c.Line(Anchored(c, b, head))| <= MAX_SLOT
    ensures var data := c.Line(Anchored(c, b, head));
            var phase := PhaseOf(c, data[..Written(writes, |data|)]);
            && (phase == Unbound <==> writes == [] || writes[0] <= 0)
            && (phase == Torn <==> 0 < Written(writes, |data|) < |data|)
            && (phase == Anchor(Anchored(c, b, head)) <==> Completes(writes, |data|))
  {
    var a := Anchored(c, b, head);
    var data := c.Line(a);
    var k := Written(writes, |data|);
    NotPending(c.sha256(head));
    FirstWrite(writes, |data|);
    hide PhaseOf, Written;
    if k == |data| {
      assert data[..k] == data;
      PhaseOfLine(c, a);
    } else {
      assert data[..k] < data;
      PhaseOfTorn(c, a, data[..k]);
    }
  }

  lemma FirstWrite(writes: seq<int>, n: nat)
    requires n > 0
    ensures Written(writes, n) == 0 <==> writes == [] || writes[0] <= 0
  {
  }

  /** After such a seal the slot can be bound again, to another run. */
  lemma InterruptedSealRebinds(c: Codec, fmt: Format, slot: bytes, initial: Json, journal: bytes, head: bytes, env: SlotEnv,
                               req: Request, live: Json, journal': bytes, head': bytes, env': SlotEnv)
    requires SealReady(c, fmt, slot, initial, journal, head, env) && (env.writes == [] || env.writes[0] <= 0)
    requires PinReady(c, fmt, [], req, live, journal', head', true, true, env')
    requires Str(req.run) != ReadSlot(c, slot).value.runId
    ensures var b := ReadSlot(c, slot).value;
            var data := c.Line(Anchored(c, b, head));
            var after := data[..Written(env.writes, |data|)];
            && PinReady(c, fmt, after, req, live, journal', head', true, true, env')
            && PinnedBinding(env'.site.value, req, c, fmt, journal', head') != b
  {
    hide Verified, BindingFits, AnchorFits, StartFits, LiveStart, ShortToken, IsSeal, PyEq, Codec.Line;
    var data := c.Line(Anchored(c, ReadSlot(c, slot).value, head));
    FirstWrite(env.writes, |data| + 1);
    assert data[..Written(env.writes, |data|)] == [];
  }

  // ---------------------------------------------------------------- what a reading vouches for, member by member

  lemma InodeIs(v: Json, id: Inode)
    ensures SameInode(v, id) <==> PyEq(v, Arr([Num(id.0), Num(id.1)]))
  {
    var w := Arr([Num(id.0), Num(id.1)]);
    PlainPair(w.items);
    if v.Arr? {
      PlainLength(v.items);
      if |v.items| == 2 {
        PlainPair(v.items);
        NumberIs(v.items[0], id.0);
        NumberIs(v.items[1], id.1);
      }
    }
  }

  lemma PlainPair(items: seq<Json>)
    requires |items| == 2
    ensures PlainAll(items) == [Plain(items[0]), Plain(items[1])]
  {
    var rest := items[1..];
    assert rest[0] == items[1] && rest[1..] == [];
    assert PlainAll(rest[1..]) == [];
    assert PlainAll(rest) == [Plain(rest[0])] + PlainAll(rest[1..]);
    assert PlainAll(items) == [Plain(items[0])] + PlainAll(rest);
  }

  lemma {:induction false} PlainLength(items: seq<Json>)
    ensures |PlainAll(items)| == |items|
  {
    if items != [] { PlainLength(items[1..]); }
  }

  /** The file at the path has this digest now. */
  predicate FileIs(site: Site, path: Json, digest: Json) {
    path.Str? && digest.Str? && site.fileDigest(path.s) == Some(digest.s)
  }

  /** A successful reading vouches that the binding is of this host, domain, boot
      and revision, that the files it names are still the ones pinned, and that
      the evidence starts with the pinned witness; once sealed, that the head
      file is the one anchored and the evidence ends with a seal. */
  lemma ReadingSays(c: Codec, fmt: Format, site: Site, slot: bytes, journal: bytes, head: bytes, b: Json, es: seq<Entry>)
    requires ReadPinned(c, fmt, site, slot, journal, head) == Some((b, es))
    ensures slot == c.Line(b) && |slot| <= 4096 && Verified(c, fmt, journal, head) == Some(es) && es != [] && b.BindingObj?
    ensures b.schema == Str("uflow-ddr-witness-binding-fixture-v2") && PyEq(b.capRevision, Num(site.revision))
    ensures b.host == Str(site.host) && b.domain == Str(site.domain) && b.boot == Str(site.boot)
    ensures b.initialHead == Str(site.genesisDigest) && b.brokerInstance.Str? && 1 <= |b.brokerInstance.s| <= 96
    ensures b.lifecycleEpoch.Num? && b.lifecycleEpoch.n >= 0
    ensures PyEq(b.brokerJournal, InodeValue(site.brokerJournal)) && PyEq(b.brokerHead, InodeValue(site.brokerHead))
    ensures PyEq(b.evidenceJournal, InodeValue(site.evidenceJournal)) && PyEq(b.evidenceHead, InodeValue(site.evidenceHead))
    ensures FileIs(site, b.codePath, b.code) && FileIs(site, b.interpreterPath, b.interpreter)
    ensures FileIs(site, b.pinPath, b.pin) && FileIs(site, b.childPath, b.child)
    ensures es[0].event.StartObj? ==>
              var start := es[0].event;
              && PyEq(start.runId, b.runId) && PyEq(start.bootId, b.boot) && PyEq(start.witnessBirth, b.witnessBirth)
              && PyEq(start.code, b.code) && PyEq(start.interpreter, b.interpreter)
    ensures b.sealedHead != Str("pending") ==>
              && b.sealedHead == Str(c.sha256(head)) && |head| <= 4096
              && (es[|es| - 1].event.SealObj? ==> es[|es| - 1].event.kind == Str("witness_seal"))
  {
    hide Verified, PyEq, Plain, ShortToken;
    InodeIs(b.brokerJournal, site.brokerJournal);
    InodeIs(b.brokerHead, site.brokerHead);
    InodeIs(b.evidenceJournal, site.evidenceJournal);
    InodeIs(b.evidenceHead, site.evidenceHead);
    RevisionIs(b.capRevision, site.revision);
    ShortTokenExact(site.alnum, b.brokerInstance.s);
  }

  lemma RevisionIs(v: Json, k: int)
    ensures PyEqInt(v, k) <==> PyEq(v, Num(k))
  {
    NumberIs(v, k);
    assert Plain(Num(k)) == Num(k);
  }

  /** The binding that `Pin` writes names, under each member, what was asked for
      and what was found. */
  lemma PinSays(c: Codec, fmt: Format, slot: bytes, req: Request, live: Json, journal: bytes, head: bytes,
                ready: bool, genesis: bool, env: SlotEnv)
    requires PinReady(c, fmt, slot, req, live, journal, head, ready, genesis, env)
    ensures env.site.Some? && Verified(c, fmt, journal, head).Some? && |Verified(c, fmt, journal, head).value| == 1
    ensures BindingNames(env.site.value, req, live, PinnedBinding(env.site.value, req, c, fmt, journal, head))
    ensures var start := Verified(c, fmt, journal, head).value[0].event;
            start.StartObj? ==> start.kind == Str("witness_start") && start.runId == Str(req.run) && start.bootId == Str(env.site.value.boot)
  {
    hide Verified, MakeBinding, ShortToken, BindingNames, LiveStart;
    var start := Verified(c, fmt, journal, head).value[0].event;
    MadeBindingNames(env.site.value, req, live, start);
    LiveStartSays(env.site.value, req, live, start);
  }

  lemma LiveStartSays(site: Site, req: Request, live: Json, start: Json)
    requires LiveStart(site, req, live, start)
    ensures start.StartObj? ==> start.kind == Str("witness_start") && start.runId == Str(req.run) && start.bootId == Str(site.boot)
  {
    hide PyEq;
  }

  predicate BindingNames(site: Site, req: Request, live: Json, b: Json) {
    && b.BindingObj? && b.runId == Str(req.run) && b.brokerInstance == Str(req.broker) && b.lifecycleEpoch == Num(req.epoch)
    && b.host == Str(site.host) && b.domain == Str(site.domain) && b.boot == Str(site.boot) && b.capRevision == Num(site.revision)
    && b.codePath == Str(req.codePath) && b.interpreterPath == Str(req.interpreterPath)
    && b.pinPath == Str(req.pinPath) && b.childPath == Str(req.childPath)
    && FileIs(site, b.codePath, b.code) && FileIs(site, b.interpreterPath, b.interpreter)
    && FileIs(site, b.pinPath, b.pin) && FileIs(site, b.childPath, b.child)
    && PyEq(b.witnessBirth, live) && b.sealedHead == Str("pending") && b.evidenceDir == Str(req.evidenceDir)
    && b.brokerJournal == InodeValue(site.brokerJournal) && b.brokerHead == InodeValue(site.brokerHead)
    && b.evidenceJournal == InodeValue(site.evidenceJournal) && b.evidenceHead == InodeValue(site.evidenceHead)
  }

  lemma MadeBindingNames(site: Site, req: Request, live: Json, start: Json)
    requires LiveStart(site, req, live, start)
    ensures BindingNames(site, req, live, MakeBinding(site, req, start))
  {
    hide PyEq, Get, IsObject, InodeValue;
  }
}
