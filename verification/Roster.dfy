/** The roster inside a sealed journal: which children were born, observed and
    waited for, as the fixture verifier re-checks it. */
module Roster {
  import opened Values

  /** What the caller expects of the log. `alnum` is Python's `str.isalnum`. */
  datatype Expected = Expected(run: string, boot: string, code: string, parent: Birth, alnum: char -> bool)

  datatype Birth = Birth(pid: int, uid: int, gid: int, pidnsDev: int, pidnsIno: int, startTicks: int)

  function BirthValue(b: Birth): Json {
    BirthObj(Num(b.pid), Num(b.uid), Num(b.gid), Num(b.pidnsDev), Num(b.pidnsIno), Num(b.startTicks))
  }

  // ---------------------------------------------------------------- wait statuses

  predicate Exited(status: int) { status % 128 == 0 }

  predicate Signaled(status: int) { status % 128 != 0 && status % 128 != 127 }

  /** `WIFEXITED(status) and WEXITSTATUS(status) == 0`. */
  predicate Normal(status: int) { Exited(status) && status / 256 % 256 == 0 }

  /** Among the statuses the kernel can report, only 0 and the bare core-dump
      flag 128 pass. */
  lemma NormalStatuses(status: int)
    requires 0 <= status <= 0xffff
    ensures Normal(status) <==> status == 0 || status == 128
  {
  }

  // ---------------------------------------------------------------- one item

  predicate Count(v: Json) { v.Num? && v.n >= 0 }

  predicate BirthOk(v: Json) {
    && v.BirthObj?
    && Count(v.pid) && Count(v.uid) && Count(v.gid) && Count(v.pidnsDev) && Count(v.pidnsIno) && Count(v.startTicks)
    && v.pid.n != 0 && v.pidnsIno.n != 0 && v.startTicks.n != 0
  }

  /** The pid inside a birth record. */
  function Pid(birth: Json): int {
    if birth.BirthObj? && birth.pid.Num? then birth.pid.n else 0
  }

  predicate TokenChar(alnum: char -> bool, ch: char) { alnum(ch) || ch == '.' || ch == '_' || ch == '-' }

  predicate Token(alnum: char -> bool, s: string) {
    s != [] && forall i :: 0 <= i < |s| ==> TokenChar(alnum, s[i])
  }

  /** A token of at most 96 ASCII characters. */
  predicate ShortToken(alnum: char -> bool, s: string) {
    |s| <= 96 && Token(alnum, s) && forall i :: 0 <= i < |s| ==> s[i] as int < 128
  }

  /** One to 96 characters, each ASCII and a letter, a digit or one of ._- */
  lemma ShortTokenExact(alnum: char -> bool, s: string)
    ensures ShortToken(alnum, s) <==>
            1 <= |s| <= 96 && forall i :: 0 <= i < |s| ==> s[i] as int < 128 && (alnum(s[i]) || s[i] in "._-")
  {
    assert forall ch: char :: ch in "._-" <==> ch == '.' || ch == '_' || ch == '-';
  }

  predicate HexDigit(ch: char) { '0' <= ch <= '9' || 'a' <= ch <= 'f' }

  predicate RoleOk(x: Expected, v: Json) {
    v.Str? && Token(x.alnum, v.s)
  }

  predicate DigestOk(v: Json) {
    v.Str? && Digest(v.s)
  }

  predicate Digest(s: string) {
    |s| == 64 && forall i :: 0 <= i < 64 ==> HexDigit(s[i])
  }

  predicate BackingOk(dev: Json, ino: Json) { Count(dev) && Count(ino) && ino.n > 0 }

  predicate LaunchOk(x: Expected, v: Json) { v.Str? && x.run + "-" <= v.s }

  predicate StatusOk(status: Json, normalZero: Json) {
    && status.Num? && 0 <= status.n <= 0xffff && (Exited(status.n) || Signaled(status.n))
    && normalZero == Bool(Normal(status.n))
  }

  /** The checks on one roster item that look at nothing but the item. */
  predicate ShapeOk(x: Expected, e: Json) {
    match e
    case NoBackingObj(kind, run, boot, dev, ino) =>
      kind == Str("witness_no_backing") && run == Str(x.run) && boot == Str(x.boot) && BackingOk(dev, ino)
    case ObservedObj(kind, run, boot, _, _, _, dev, ino, fd, mapping) =>
      && kind == Str("child_resource_observed") && run == Str(x.run) && boot == Str(x.boot)
      && fd == Bool(true) && mapping.Bool? && BackingOk(dev, ino)
    case ChildBirthObj(kind, run, launch, boot, role, birth, exe, argv, pidfd) =>
      && kind == Str("child_birth") && run == Str(x.run) && boot == Str(x.boot) && LaunchOk(x, launch)
      && BirthOk(birth) && pidfd == Bool(true) && RoleOk(x, role) && DigestOk(exe) && DigestOk(argv)
    case ChildWaitObj(kind, run, launch, boot, _, birth, status, normal) =>
      && kind == Str("child_wait") && run == Str(x.run) && boot == Str(x.boot) && LaunchOk(x, launch)
      && BirthOk(birth) && StatusOk(status, normal)
    case _ => false
  }

  /** The verifier's working tables. A child is keyed by its birth record. */
  datatype Tables = Tables(births: map<Json, Json>, waits: map<Json, int>, active: map<int, Json>, launches: set<string>)

  const EMPTY: Tables := Tables(map[], map[], map[], {})

  /** `e` speaks of a child already born, under the same role and launch. */
  predicate KnownChild(t: Tables, e: Json)
    requires e.ObservedObj? || e.ChildWaitObj?
  {
    && e.birth in t.births && e.birth !in t.waits && t.births[e.birth].ChildBirthObj?
    && t.births[e.birth].role == e.role && t.births[e.birth].launchId == e.launchId
  }

  /** The checks that look at the tables, and the update. */
  function Apply(t: Tables, e: Json): Option<Tables> {
    match e
    case NoBackingObj(_, _, _, _, _) => Some(t)
    case ObservedObj(_, _, _, _, _, _, _, _, _, _) => if KnownChild(t, e) then Some(t) else None
    case ChildBirthObj(_, _, launch, _, _, birth, _, _, _) =>
      if !launch.Str? || birth in t.births || Pid(birth) in t.active || launch.s in t.launches then None
      else Some(t.(births := t.births[birth := e], launches := t.launches + {launch.s},
                   active := t.active[Pid(birth) := birth]))
    case ChildWaitObj(_, _, _, _, _, birth, status, _) =>
      if !status.Num? || !KnownChild(t, e) || Pid(birth) !in t.active || t.active[Pid(birth)] != birth then None
      else Some(t.(waits := t.waits[birth := status.n], active := t.active - {Pid(birth)}))
    case _ => None
  }

  /** One turn of the verifier's loop; None is a raised error. */
  function Step(x: Expected, t: Tables, e: Json): Option<Tables> {
    if ShapeOk(x, e) then Apply(t, e) else None
  }

  function Scan(x: Expected, items: seq<Json>): Option<Tables> {
    if items == [] then Some(EMPTY)
    else
      match Scan(x, items[..|items| - 1])
      case None => None
      case Some(t) => Step(x, t, items[|items| - 1])
  }

  predicate StartOk(x: Expected, e: Json) {
    && e.StartObj? && e.kind == Str("witness_start") && e.runId == Str(x.run) && e.bootId == Str(x.boot)
    && e.code == Str(x.code) && SameBirth(e.witnessBirth, x.parent)
  }

  /** Python's `==` between a parsed object and a birth record of integers. */
  predicate SameBirth(v: Json, b: Birth) {
    && v.BirthObj? && PyEqInt(v.pid, b.pid) && PyEqInt(v.uid, b.uid) && PyEqInt(v.gid, b.gid)
    && PyEqInt(v.pidnsDev, b.pidnsDev) && PyEqInt(v.pidnsIno, b.pidnsIno) && PyEqInt(v.startTicks, b.startTicks)
  }

  lemma NumberIs(v: Json, k: int)
    ensures PyEqInt(v, k) <==> Plain(v) == Num(k)
  {
  }

  lemma BirthIs(v: Json, b: Birth)
    ensures SameBirth(v, b) <==> PyEq(v, BirthValue(b))
  {
    PlainBirth(b);
    if v.BirthObj? {
      assert Plain(v) == BirthObj(Plain(v.pid), Plain(v.uid), Plain(v.gid), Plain(v.pidnsDev), Plain(v.pidnsIno), Plain(v.startTicks));
      NumberIs(v.pid, b.pid);
      NumberIs(v.uid, b.uid);
      NumberIs(v.gid, b.gid);
      NumberIs(v.pidnsDev, b.pidnsDev);
      NumberIs(v.pidnsIno, b.pidnsIno);
      NumberIs(v.startTicks, b.startTicks);
    }
  }

  lemma PlainBirth(b: Birth)
    ensures Plain(BirthValue(b)) == BirthValue(b)
  {
  }

  /** The checks after the loop. */
  predicate SealOk(x: Expected, e: Json, t: Tables, required: seq<Json>) {
    && e.SealObj? && e.kind == Str("witness_seal") && e.runId == Str(x.run)
    && t.births.Keys == t.waits.Keys && t.active == map[]
    && e.children == Num(|t.births|)
    && e.allNormalZero == Bool(true)
    && (forall k :: k in t.waits ==> Normal(t.waits[k]))
    && InWaits(t, required)
  }

  predicate InWaits(t: Tables, required: seq<Json>) {
    forall i :: 0 <= i < |required| ==> required[i] in t.waits
  }

  lemma {:induction false} ScanSticks(x: Expected, items: seq<Json>, k: nat)
    requires k <= |items| && Scan(x, items[..k]) == None
    ensures Scan(x, items) == None
    decreases |items|
  {
    if k == |items| {
      assert items[..k] == items;
    } else {
      assert items[..|items| - 1][..k] == items[..k];
      ScanSticks(x, items[..|items| - 1], k);
    }
  }

  // ---------------------------------------------------------------- what acceptance means

  predicate IsBirth(e: Json) { e.ChildBirthObj? }

  /** Items that speak of a child already born. */
  predicate IsMention(e: Json) { e.ObservedObj? || e.ChildWaitObj? }

  predicate BirthAt(items: seq<Json>, i: int, birth: Json) {
    0 <= i < |items| && IsBirth(items[i]) && items[i].birth == birth
  }

  predicate WaitAt(items: seq<Json>, j: int, birth: Json) {
    0 <= j < |items| && items[j].ChildWaitObj? && items[j].birth == birth
  }

  predicate LaunchAt(items: seq<Json>, i: int, launch: string) {
    0 <= i < |items| && IsBirth(items[i]) && items[i].launchId == Str(launch)
  }

  /** `items[i]` is the birth of the child that `e` speaks of. */
  predicate BornAs(items: seq<Json>, i: int, e: Json)
    requires IsMention(e)
  {
    BirthAt(items, i, e.birth) && items[i].role == e.role && items[i].launchId == e.launchId
  }

  /** No birth record and no launch identity is used twice. */
  ghost predicate UniqueBirths(items: seq<Json>) {
    forall i, j :: 0 <= i < j < |items| && IsBirth(items[i]) && IsBirth(items[j]) ==>
      items[i].birth != items[j].birth && items[i].launchId != items[j].launchId
  }

  /** A wait or an observation follows the birth of its child. */
  ghost predicate Founded(items: seq<Json>) {
    forall j :: 0 <= j < |items| && IsMention(items[j]) ==> exists i :: i < j && BornAs(items, i, items[j])
  }

  /** No child is waited for twice, or observed after its wait. */
  ghost predicate WaitIsLast(items: seq<Json>) {
    forall i, j :: 0 <= i < j < |items| && IsMention(items[j]) ==> !WaitAt(items, i, items[j].birth)
  }

  /** A pid is reused only after the earlier child was waited for. */
  ghost predicate OneLivePerPid(items: seq<Json>) {
    forall i, j :: 0 <= i < j < |items| && IsBirth(items[i]) && IsBirth(items[j]) && Pid(items[i].birth) == Pid(items[j].birth) ==>
      exists k :: i < k < j && WaitAt(items, k, items[i].birth)
  }

  ghost predicate Orderly(items: seq<Json>) {
    UniqueBirths(items) && Founded(items) && WaitIsLast(items) && OneLivePerPid(items)
  }

  ghost predicate AllShaped(x: Expected, items: seq<Json>) {
    forall i :: 0 <= i < |items| ==> ShapeOk(x, items[i])
  }

  // What each of these asks of one more item.

  ghost predicate FreshBirth(items: seq<Json>, e: Json) {
    IsBirth(e) ==> forall i :: 0 <= i < |items| && IsBirth(items[i]) ==>
      items[i].birth != e.birth && items[i].launchId != e.launchId
  }

  ghost predicate FreePid(items: seq<Json>, e: Json) {
    IsBirth(e) ==> forall i :: 0 <= i < |items| && IsBirth(items[i]) && Pid(items[i].birth) == Pid(e.birth) ==>
      exists k :: i < k && WaitAt(items, k, items[i].birth)
  }

  ghost predicate Mentionable(items: seq<Json>, e: Json) {
    IsMention(e) ==> (exists i :: BornAs(items, i, e)) && forall i :: !WaitAt(items, i, e.birth)
  }

  ghost predicate Joins(items: seq<Json>, e: Json) {
    FreshBirth(items, e) && FreePid(items, e) && Mentionable(items, e)
  }

  lemma Snoc(items: seq<Json>, e: Json)
    ensures var all := items + [e];
            && (forall i, b :: BirthAt(all, i, b) <==> BirthAt(items, i, b) || (i == |items| && IsBirth(e) && e.birth == b))
            && (forall i, b :: WaitAt(all, i, b) <==> WaitAt(items, i, b) || (i == |items| && e.ChildWaitObj? && e.birth == b))
            && (forall i, l :: LaunchAt(all, i, l) <==> LaunchAt(items, i, l) || (i == |items| && IsBirth(e) && e.launchId == Str(l)))
            && all[|items|] == e && forall i :: 0 <= i < |items| ==> all[i] == items[i]
  {
  }

  lemma FoundedSnoc(items: seq<Json>, e: Json)
    ensures Founded(items + [e]) && WaitIsLast(items + [e]) <==>
            Founded(items) && WaitIsLast(items) && Mentionable(items, e)
  {
    Snoc(items, e);
    var n, all := |items|, items + [e];
    forall j | 0 <= j < n && IsMention(items[j])
      ensures (exists i :: i < j && BornAs(items, i, items[j])) <==> (exists i :: i < j && BornAs(all, i, all[j]))
    {
      if i :| i < j && BornAs(items, i, items[j]) { assert BornAs(all, i, all[j]); }
      if i :| i < j && BornAs(all, i, all[j]) { assert BornAs(items, i, items[j]); }
    }
    if IsMention(e) {
      if i :| BornAs(items, i, e) { assert i < n && BornAs(all, i, all[n]); }
      if i :| i < n && BornAs(all, i, all[n]) { assert BornAs(items, i, e); }
      assert (forall i :: !WaitAt(items, i, e.birth)) <==> (forall i :: 0 <= i < n ==> !WaitAt(all, i, all[n].birth));
    }
  }

  lemma PidSnoc(items: seq<Json>, e: Json)
    ensures OneLivePerPid(items + [e]) <==> OneLivePerPid(items) && FreePid(items, e)
  {
    Snoc(items, e);
    var n, all := |items|, items + [e];
    forall i, j | 0 <= i < j < n && IsBirth(items[i]) && IsBirth(items[j])
      ensures (exists k :: i < k < j && WaitAt(items, k, items[i].birth)) <==> (exists k :: i < k < j && WaitAt(all, k, all[i].birth))
    {
      if k :| i < k < j && WaitAt(items, k, items[i].birth) { assert WaitAt(all, k, all[i].birth); }
      if k :| i < k < j && WaitAt(all, k, all[i].birth) { assert WaitAt(items, k, items[i].birth); }
    }
    forall i | 0 <= i < n && IsBirth(items[i])
      ensures (exists k :: i < k && WaitAt(items, k, items[i].birth)) <==> (exists k :: i < k < n && WaitAt(all, k, all[i].birth))
    {
      if k :| i < k && WaitAt(items, k, items[i].birth) { assert k < n && WaitAt(all, k, all[i].birth); }
      if k :| i < k < n && WaitAt(all, k, all[i].birth) { assert WaitAt(items, k, items[i].birth); }
    }
  }

  lemma UniqueSnoc(items: seq<Json>, e: Json)
    ensures UniqueBirths(items + [e]) <==> UniqueBirths(items) && FreshBirth(items, e)
  {
    Snoc(items, e);
  }

  lemma OrderlySnoc(items: seq<Json>, e: Json)
    ensures Orderly(items + [e]) <==> Orderly(items) && Joins(items, e)
  {
    UniqueSnoc(items, e);
    FoundedSnoc(items, e);
    PidSnoc(items, e);
  }

  // The tables say exactly what the items say.

  ghost predicate BirthsReflect(items: seq<Json>, t: Tables) {
    && (forall i :: 0 <= i < |items| && IsBirth(items[i]) ==> items[i].birth in t.births && t.births[items[i].birth] == items[i])
    && (forall b :: b in t.births ==> exists i :: BirthAt(items, i, b))
  }

  ghost predicate WaitsReflect(items: seq<Json>, t: Tables) {
    && (forall j :: 0 <= j < |items| && items[j].ChildWaitObj? ==>
          items[j].birth in t.waits && items[j].rawStatus == Num(t.waits[items[j].birth]))
    && (forall b :: b in t.waits ==> exists j :: WaitAt(items, j, b))
  }

  ghost predicate LaunchesReflect(items: seq<Json>, t: Tables) {
    && (forall l :: l in t.launches ==> exists i :: LaunchAt(items, i, l))
    && (forall i, l :: LaunchAt(items, i, l) ==> l in t.launches)
  }

  /** The live children are those born and not waited for, under their pids. */
  ghost predicate ActiveReflect(t: Tables) {
    && (forall b :: b in t.waits ==> b in t.births)
    && (forall p :: p in t.active ==> t.active[p] in t.births && t.active[p] !in t.waits && Pid(t.active[p]) == p)
    && (forall b :: b in t.births && b !in t.waits ==> Pid(b) in t.active && t.active[Pid(b)] == b)
  }

  ghost predicate Reflects(items: seq<Json>, t: Tables) {
    && BirthsReflect(items, t) && WaitsReflect(items, t) && LaunchesReflect(items, t) && ActiveReflect(t)
    && |t.births| == Births(items)
  }

  function Births(items: seq<Json>): nat {
    if items == [] then 0
    else Births(items[..|items| - 1]) + if IsBirth(items[|items| - 1]) then 1 else 0
  }

  /** Against tables that reflect the items so far, one turn of the loop
      succeeds exactly when the item may join them. */
  lemma StepJoins(items: seq<Json>, t: Tables, e: Json)
    requires Orderly(items) && Reflects(items, t) && Typed(e)
    ensures Apply(t, e).Some? <==> Joins(items, e)
  {
    hide Orderly, BirthsReflect, WaitsReflect, LaunchesReflect, ActiveReflect, KnownChild, Pid;
    if IsMention(e) {
      MentionJoins(items, t, e);
    } else if IsBirth(e) {
      BirthFresh(items, t, e);
      BirthFree(items, t, e);
    }
  }

  /** What the shape of an item guarantees to the table update. */
  predicate Typed(e: Json) {
    || e.NoBackingObj? || e.ObservedObj? || (e.ChildBirthObj? && e.launchId.Str?) || (e.ChildWaitObj? && e.rawStatus.Num?)
  }

  lemma ShapedIsTyped(x: Expected, e: Json)
    requires ShapeOk(x, e)
    ensures Typed(e)
  {
  }

  lemma MentionJoins(items: seq<Json>, t: Tables, e: Json)
    requires BirthsReflect(items, t) && WaitsReflect(items, t) && ActiveReflect(t)
    requires IsMention(e)
    ensures KnownChild(t, e) <==> Mentionable(items, e)
    ensures KnownChild(t, e) ==> Pid(e.birth) in t.active && t.active[Pid(e.birth)] == e.birth
  {
    if KnownChild(t, e) {
      var i :| BirthAt(items, i, e.birth);
      assert BornAs(items, i, e);
    }
  }

  lemma BirthFresh(items: seq<Json>, t: Tables, e: Json)
    requires BirthsReflect(items, t) && LaunchesReflect(items, t)
    requires IsBirth(e) && e.launchId.Str?
    ensures e.birth !in t.births && e.launchId.s !in t.launches <==> FreshBirth(items, e)
  {
    if e.birth in t.births {
      var i :| BirthAt(items, i, e.birth);
    } else if e.launchId.s in t.launches {
      var i :| LaunchAt(items, i, e.launchId.s);
    } else {
      forall i | 0 <= i < |items| && IsBirth(items[i])
        ensures items[i].birth != e.birth && items[i].launchId != e.launchId
      {
        assert !LaunchAt(items, i, e.launchId.s);
      }
    }
  }

  lemma BirthFree(items: seq<Json>, t: Tables, e: Json)
    requires Orderly(items) && Reflects(items, t)
    requires IsBirth(e)
    ensures Pid(e.birth) !in t.active <==> FreePid(items, e)
  {
    var p := Pid(e.birth);
    if p in t.active {
      var b := t.active[p];
      var i :| BirthAt(items, i, b);
      assert forall k :: !WaitAt(items, k, b);
    } else {
      forall i | 0 <= i < |items| && IsBirth(items[i]) && Pid(items[i].birth) == p
        ensures exists k :: i < k && WaitAt(items, k, items[i].birth)
      {
        var b := items[i].birth;
        assert b in t.waits;
        var k :| WaitAt(items, k, b);
        WaitAfterBirth(items, i, k);
      }
    }
  }

  /** In an orderly list a wait comes after its birth. */
  lemma WaitAfterBirth(items: seq<Json>, i: int, k: int)
    requires UniqueBirths(items) && Founded(items)
    requires 0 <= i < |items| && IsBirth(items[i]) && WaitAt(items, k, items[i].birth)
    ensures i < k
  {
    var j :| j < k && BornAs(items, j, items[k]);
    assert items[j].birth == items[i].birth;
  }

  lemma ReflectsSnoc(items: seq<Json>, t: Tables, e: Json)
    requires Reflects(items, t) && Apply(t, e).Some?
    ensures Reflects(items + [e], Apply(t, e).value)
  {
    BirthsSnoc(items, t, e);
    CountSnoc(items, t, e);
    WaitsSnoc(items, t, e);
    LaunchesSnoc(items, t, e);
    ActiveSnoc(t, e);
  }

  lemma BirthsSnoc(items: seq<Json>, t: Tables, e: Json)
    requires BirthsReflect(items, t) && Apply(t, e).Some?
    ensures BirthsReflect(items + [e], Apply(t, e).value)
  {
    Snoc(items, e);
    var n, all, t' := |items|, items + [e], Apply(t, e).value;
    forall b | b in t'.births ensures exists i :: BirthAt(all, i, b) {
      if b in t.births {
        var i :| BirthAt(items, i, b);
        assert BirthAt(all, i, b);
      } else {
        assert BirthAt(all, n, b);
      }
    }
  }

  lemma CountSnoc(items: seq<Json>, t: Tables, e: Json)
    requires |t.births| == Births(items) && Apply(t, e).Some?
    ensures |Apply(t, e).value.births| == Births(items + [e])
  {
    hide KnownChild, Pid;
    assert (items + [e])[..|items|] == items;
    if IsBirth(e) { FreshKey(t.births, e.birth, e); }
  }

  lemma FreshKey(m: map<Json, Json>, k: Json, v: Json)
    requires k !in m
    ensures |m[k := v]| == |m| + 1
  {
    assert m[k := v].Keys == m.Keys + {k};
    assert |m[k := v]| == |m[k := v].Keys| && |m| == |m.Keys|;
  }

  lemma WaitsSnoc(items: seq<Json>, t: Tables, e: Json)
    requires WaitsReflect(items, t) && Apply(t, e).Some?
    ensures WaitsReflect(items + [e], Apply(t, e).value)
  {
    Snoc(items, e);
    var n, all, t' := |items|, items + [e], Apply(t, e).value;
    forall b | b in t'.waits ensures exists j :: WaitAt(all, j, b) {
      if b in t.waits {
        var j :| WaitAt(items, j, b);
        assert WaitAt(all, j, b);
      } else {
        assert WaitAt(all, n, b);
      }
    }
  }

  lemma LaunchesSnoc(items: seq<Json>, t: Tables, e: Json)
    requires LaunchesReflect(items, t) && Apply(t, e).Some?
    ensures LaunchesReflect(items + [e], Apply(t, e).value)
  {
    Snoc(items, e);
    var n, all, t' := |items|, items + [e], Apply(t, e).value;
    forall l | l in t'.launches ensures exists i :: LaunchAt(all, i, l) {
      if l in t.launches {
        var i :| LaunchAt(items, i, l);
        assert LaunchAt(all, i, l);
      } else {
        assert LaunchAt(all, n, l);
      }
    }
  }

  lemma ActiveSnoc(t: Tables, e: Json)
    requires ActiveReflect(t) && Apply(t, e).Some?
    ensures ActiveReflect(Apply(t, e).value)
  {
  }

  /** The loop lets a list through exactly when every item is well shaped and
      the list is orderly; the tables it ends with reflect the list. */
  lemma {:induction false} ScanExact(x: Expected, items: seq<Json>)
    ensures Scan(x, items).Some? <==> AllShaped(x, items) && Orderly(items)
    ensures Scan(x, items).Some? ==> Reflects(items, Scan(x, items).value)
  {
    hide Orderly, Reflects, Joins, ShapeOk, Apply, AllShaped;
    if items == [] {
      EmptyScan(x, items);
    } else {
      var n := |items| - 1;
      var front, e := items[..n], items[n];
      assert items == front + [e];
      ScanExact(x, front);
      OrderlySnoc(front, e);
      ShapedSnoc(x, front, e);
      if Scan(x, front).Some? {
        var t := Scan(x, front).value;
        if ShapeOk(x, e) {
          ShapedIsTyped(x, e);
          StepJoins(front, t, e);
          if Apply(t, e).Some? { ReflectsSnoc(front, t, e); }
        }
      }
    }
  }

  lemma EmptyScan(x: Expected, items: seq<Json>)
    requires items == []
    ensures AllShaped(x, items) && Orderly(items) && Reflects(items, EMPTY)
  {
  }

  lemma ShapedSnoc(x: Expected, front: seq<Json>, e: Json)
    ensures AllShaped(x, front + [e]) <==> AllShaped(x, front) && ShapeOk(x, e)
  {
    Snoc(front, e);
  }

  /** What the verifier is for, said about the event list alone. */
  ghost predicate GoodRoster(x: Expected, events: seq<Json>, required: seq<Json>) {
    && |events| >= 2 && StartOk(x, events[0])
    && var items := events[1..|events| - 1];
    && AllShaped(x, items) && Orderly(items) && AllWaited(items) && AllNormal(items)
    && SealSays(x, events[|events| - 1], Births(items))
    && Covered(items, required)
  }

  ghost predicate Covered(items: seq<Json>, required: seq<Json>) {
    forall i :: 0 <= i < |required| ==> Waited(items, required[i])
  }

  ghost predicate Waited(items: seq<Json>, birth: Json) { exists j :: WaitAt(items, j, birth) }

  ghost predicate AllWaited(items: seq<Json>) {
    forall i :: 0 <= i < |items| && IsBirth(items[i]) ==> Waited(items, items[i].birth)
  }

  ghost predicate AllNormal(items: seq<Json>) {
    forall j :: 0 <= j < |items| && items[j].ChildWaitObj? ==> items[j].rawStatus.Num? && Normal(items[j].rawStatus.n)
  }

  predicate SealSays(x: Expected, e: Json, children: nat) {
    && e.SealObj? && e.kind == Str("witness_seal") && e.runId == Str(x.run)
    && e.children == Num(children) && e.allNormalZero == Bool(true)
  }

  lemma RosterExact(x: Expected, events: seq<Json>, required: seq<Json>)
    requires |events| >= 2
    ensures GoodRoster(x, events, required) <==>
            && StartOk(x, events[0])
            && Scan(x, events[1..|events| - 1]).Some?
            && SealOk(x, events[|events| - 1], Scan(x, events[1..|events| - 1]).value, required)
  {
    var items, seal := events[1..|events| - 1], events[|events| - 1];
    ScanExact(x, items);
    if Scan(x, items).Some? {
      SealExact(x, items, Scan(x, items).value, seal, required);
    }
  }

  lemma SealExact(x: Expected, items: seq<Json>, t: Tables, e: Json, required: seq<Json>)
    requires Reflects(items, t)
    ensures SealOk(x, e, t, required) <==>
            AllWaited(items) && AllNormal(items) && SealSays(x, e, Births(items)) && Covered(items, required)
  {
    EverybodyWaited(items, t);
    NormalEverywhere(items, t);
    CoveredByWaits(items, t, required);
  }

  lemma CoveredByWaits(items: seq<Json>, t: Tables, required: seq<Json>)
    requires WaitsReflect(items, t)
    ensures InWaits(t, required) <==> Covered(items, required)
  {
    if Covered(items, required) {
      forall i | 0 <= i < |required| ensures required[i] in t.waits {
        var j :| WaitAt(items, j, required[i]);
        assert items[j].birth in t.waits;
      }
    }
    if InWaits(t, required) {
      forall i | 0 <= i < |required| ensures Waited(items, required[i]) {
        assert required[i] in t.waits;
      }
    }
  }

  lemma NormalEverywhere(items: seq<Json>, t: Tables)
    requires WaitsReflect(items, t)
    ensures AllNormal(items) <==> forall k :: k in t.waits ==> Normal(t.waits[k])
  {
    if AllNormal(items) {
      forall k | k in t.waits ensures Normal(t.waits[k]) {
        var j :| WaitAt(items, j, k);
      }
    }
  }

  lemma EverybodyWaited(items: seq<Json>, t: Tables)
    requires Reflects(items, t)
    ensures AllWaited(items) <==> t.births.Keys == t.waits.Keys && t.active == map[]
  {
    BornAndWaited(items, t);
    NobodyActive(t);
  }

  lemma BornAndWaited(items: seq<Json>, t: Tables)
    requires BirthsReflect(items, t) && WaitsReflect(items, t)
    ensures AllWaited(items) <==> forall b :: b in t.births ==> b in t.waits
  {
    if AllWaited(items) {
      forall b | b in t.births ensures b in t.waits {
        var i :| BirthAt(items, i, b);
        var j :| WaitAt(items, j, items[i].birth);
      }
    }
  }

  lemma NobodyActive(t: Tables)
    requires ActiveReflect(t)
    ensures (forall b :: b in t.births ==> b in t.waits) <==> t.births.Keys == t.waits.Keys && t.active == map[]
  {
    if forall b :: b in t.births ==> b in t.waits {
      assert forall p :: p !in t.active;
    }
  }

  /** `Step` by `Step`, the verifier's own loop. */
  method VerifyRoster(x: Expected, events: seq<Json>, required: seq<Json>) returns (ok: bool)
    ensures ok <==> GoodRoster(x, events, required)
  {
    hide ShapeOk, KnownChild, StartOk, SealOk, Pid;
    if |events| < 2 || !StartOk(x, events[0]) {
      assert !GoodRoster(x, events, required);
      return false;
    }
    hide GoodRoster;
    RosterExact(x, events, required);
    var items, seal := events[1..|events| - 1], events[|events| - 1];
    var births: map<Json, Json>, waits: map<Json, int>, active: map<int, Json>, launches: set<string> := map[], map[], map[], {};
    for i := 0 to |items|
      invariant Scan(x, items[..i]) == Some(Tables(births, waits, active, launches))
    {
      var e := items[i];
      assert items[..i + 1][..i] == items[..i];
      var t := Tables(births, waits, active, launches);
      if Step(x, t, e) == None {
        ScanSticks(x, items, i + 1);
        return false;
      }
      if e.ChildBirthObj? {
        births, launches := births[e.birth := e], launches + {e.launchId.s};
        active := active[Pid(e.birth) := e.birth];
      } else if e.ChildWaitObj? {
        waits, active := waits[e.birth := e.rawStatus.n], active - {Pid(e.birth)};
      }
    }
    assert items[..|items|] == items;
    return SealOk(x, seal, Tables(births, waits, active, launches), required);
  }


  // ---------------------------------------------------------------- what a caller may conclude

  /** Births and waits of an accepted roster pair off: each birth has exactly
      one wait, later, under the same role and launch; each wait has exactly
      one birth. */
  lemma BirthsAndWaitsPairOff(items: seq<Json>, i: int)
    requires Orderly(items) && AllWaited(items)
    requires 0 <= i < |items|
    ensures IsBirth(items[i]) ==>
              exists j :: (&& i < j && WaitAt(items, j, items[i].birth) && BornAs(items, i, items[j])
                           && forall j' :: WaitAt(items, j', items[i].birth) ==> j' == j)
    ensures items[i].ChildWaitObj? ==>
              exists j :: (&& j < i && BornAs(items, j, items[i])
                           && forall j' :: BirthAt(items, j', items[i].birth) ==> j' == j)
  {
    if IsBirth(items[i]) {
      var j :| WaitAt(items, j, items[i].birth);
      WaitAfterBirth(items, i, j);
      var k :| k < j && BornAs(items, k, items[j]);
      assert k == i;
      assert forall j' :: WaitAt(items, j', items[j].birth) ==> j' == j;
    }
    if items[i].ChildWaitObj? {
      var j :| j < i && BornAs(items, j, items[i]);
      assert forall j' :: BirthAt(items, j', items[i].birth) ==> j' == j;
    }
  }

  lemma WaitAfterMention(items: seq<Json>, k: int, j: int)
    requires WaitIsLast(items) && 0 <= k < |items| && items[k].ObservedObj? && WaitAt(items, j, items[k].birth)
    ensures k < j
  {
  }

  /** Every resource observation lies strictly between its child's birth and
      its child's wait. */
  lemma ObservedWhileAlive(items: seq<Json>, k: int)
    requires Orderly(items) && AllWaited(items)
    requires 0 <= k < |items| && items[k].ObservedObj?
    ensures exists i, j :: i < k < j && BornAs(items, i, items[k]) && WaitAt(items, j, items[k].birth)
  {
    var i :| i < k && BornAs(items, i, items[k]);
    var j :| WaitAt(items, j, items[i].birth);
    WaitAfterMention(items, k, j);
    assert i < k < j && BornAs(items, i, items[k]) && WaitAt(items, j, items[k].birth);
  }

  /** At every prefix at most one child per pid is born and not yet waited for. */
  lemma OneLiveChildPerPid(items: seq<Json>, n: nat, i: int, j: int)
    requires Orderly(items) && n <= |items|
    requires 0 <= i < n && 0 <= j < n && IsBirth(items[i]) && IsBirth(items[j])
    requires Pid(items[i].birth) == Pid(items[j].birth)
    requires forall k :: !WaitAt(items[..n], k, items[i].birth) && !WaitAt(items[..n], k, items[j].birth)
    ensures i == j
  {
    hide UniqueBirths, Founded, WaitIsLast, Pid;
    assert forall k, b :: 0 <= k < n && WaitAt(items, k, b) ==> WaitAt(items[..n], k, b);
  }

  // ---------------------------------------------------------------- what an accepted roster says, field by field

  predicate AtLeast(v: Json, low: int) { v.Num? && v.n >= low }

  /** Sixty-four lower-case hexadecimal digits. */
  predicate HexText(v: Json) { v.Str? && |v.s| == 64 && forall i :: 0 <= i < 64 ==> v.s[i] in "0123456789abcdef" }

  /** A record that a run can vouch for: of this run and boot, with every field
      in its own range, and for a wait a normal zero exit. */
  predicate Genuine(x: Expected, e: Json) {
    && (e.ChildBirthObj? || e.ChildWaitObj? || e.ObservedObj? || e.NoBackingObj?)
    && e.runId == Str(x.run) && e.bootId == Str(x.boot)
    && (e.ChildBirthObj? || e.ChildWaitObj? ==>
          && e.launchId.Str? && x.run + "-" <= e.launchId.s && e.birth.BirthObj?
          && AtLeast(e.birth.pid, 1) && AtLeast(e.birth.uid, 0) && AtLeast(e.birth.gid, 0)
          && AtLeast(e.birth.pidnsDev, 0) && AtLeast(e.birth.pidnsIno, 1) && AtLeast(e.birth.startTicks, 1))
    && (e.ChildBirthObj? ==>
          && e.kind == Str("child_birth") && e.pidfdOpened == Bool(true) && HexText(e.executable) && HexText(e.argv)
          && e.role.Str? && |e.role.s| > 0 && forall i :: 0 <= i < |e.role.s| ==> x.alnum(e.role.s[i]) || e.role.s[i] in "._-")
    && (e.ChildWaitObj? ==>
          e.kind == Str("child_wait") && (e.rawStatus == Num(0) || e.rawStatus == Num(128)) && e.normalZero == Bool(true))
    && (e.ObservedObj? ==> e.kind == Str("child_resource_observed") && e.fdObserved == Bool(true) && e.mappingObserved.Bool?)
    && (e.ObservedObj? || e.NoBackingObj? ==> AtLeast(e.dev, 0) && AtLeast(e.ino, 1))
    && (e.NoBackingObj? ==> e.kind == Str("witness_no_backing"))
  }

  predicate ExitsWell(e: Json) { e.ChildWaitObj? ==> e.rawStatus.Num? && Normal(e.rawStatus.n) }

  lemma SameDigest(v: Json)
    ensures DigestOk(v) <==> HexText(v)
  {
    assert forall ch: char :: HexDigit(ch) <==> ch in "0123456789abcdef";
  }

  lemma SameToken(x: Expected, v: Json)
    ensures RoleOk(x, v) <==>
            v.Str? && |v.s| > 0 && forall i :: 0 <= i < |v.s| ==> x.alnum(v.s[i]) || v.s[i] in "._-"
  {
    assert forall ch: char :: ch in "._-" <==> ch == '.' || ch == '_' || ch == '-';
  }

  lemma ZeroExited()
    ensures Exited(0) && Exited(128) && Normal(0) && Normal(128)
  {
  }

  lemma GenuineExact(x: Expected, e: Json)
    ensures Genuine(x, e) <==> ShapeOk(x, e) && ExitsWell(e)
  {
    hide HexText, DigestOk, RoleOk, Normal, Signaled, Exited;
    if e.ChildBirthObj? {
      SameDigest(e.executable);
      SameDigest(e.argv);
      SameToken(x, e.role);
    }
    ZeroExited();
    if e.ChildWaitObj? && e.rawStatus.Num? && 0 <= e.rawStatus.n <= 0xffff { NormalStatuses(e.rawStatus.n); }
  }

  lemma AllGenuine(x: Expected, items: seq<Json>)
    ensures AllShaped(x, items) && AllNormal(items) <==> forall i :: 0 <= i < |items| ==> Genuine(x, items[i])
  {
    hide ShapeOk, Genuine, Normal;
    forall i | 0 <= i < |items| ensures Genuine(x, items[i]) <==> ShapeOk(x, items[i]) && ExitsWell(items[i]) {
      GenuineExact(x, items[i]);
    }
  }

  /** An accepted roster starts with this run's witness, ends with a seal that
      counts its births, and holds only genuine records between. */
  lemma AcceptedFields(x: Expected, events: seq<Json>, required: seq<Json>)
    requires GoodRoster(x, events, required)
    ensures forall i :: 0 < i < |events| - 1 ==> Genuine(x, events[i])
    ensures var start := events[0];
            && start.StartObj? && start.kind == Str("witness_start") && start.runId == Str(x.run) && start.bootId == Str(x.boot)
            && start.code == Str(x.code) && PyEq(start.witnessBirth, BirthValue(x.parent))
    ensures var seal := events[|events| - 1];
            && seal.SealObj? && seal.kind == Str("witness_seal") && seal.runId == Str(x.run)
            && seal.children == Num(|BirthPlaces(events)|) && seal.allNormalZero == Bool(true)
  {
    hide Genuine, Orderly, AllShaped, AllNormal, AllWaited, Covered, ShapeOk, Births;
    var items := events[1..|events| - 1];
    AllGenuine(x, items);
    forall i | 0 < i < |events| - 1 ensures Genuine(x, events[i]) { assert events[i] == items[i - 1]; }
    BirthIs(events[0].witnessBirth, x.parent);
    hide PyEq, SameBirth;
    CountBirths(events, |events| - 1);
    SealIsNoBirth(events);
  }

  /** Where the births stand. */
  function BirthPlaces(events: seq<Json>): set<int> { set i | 0 <= i < |events| && events[i].ChildBirthObj? }

  lemma {:induction false} CountBirths(events: seq<Json>, n: int)
    requires 1 <= n <= |events| && !events[0].ChildBirthObj?
    ensures Births(events[1..n]) == |BirthPlaces(events[..n])|
  {
    var places := BirthPlaces(events[..n]);
    if n == 1 {
      assert places == {};
    } else {
      CountBirths(events, n - 1);
      assert events[1..n][..n - 2] == events[1..n - 1] && events[1..n][n - 2] == events[n - 1];
      assert Births(events[1..n]) == Births(events[1..n - 1]) + if IsBirth(events[n - 1]) then 1 else 0;
      hide Births;
      OneMorePlace(events, n);
    }
  }

  lemma OneMorePlace(events: seq<Json>, n: int)
    requires 1 <= n <= |events|
    ensures |BirthPlaces(events[..n])| == |BirthPlaces(events[..n - 1])| + if events[n - 1].ChildBirthObj? then 1 else 0
  {
    var before, places := BirthPlaces(events[..n - 1]), BirthPlaces(events[..n]);
    assert places == if events[n - 1].ChildBirthObj? then before + {n - 1} else before;
  }

  lemma SealIsNoBirth(events: seq<Json>)
    requires events != [] && !events[|events| - 1].ChildBirthObj?
    ensures BirthPlaces(events) == BirthPlaces(events[..|events| - 1])
  {
    assert forall i :: 0 <= i < |events| - 1 ==> events[..|events| - 1][i] == events[i];
  }

  /** The two records link to the same child in the same way. */
  predicate SameLinks(d: Json, e: Json) {
    || (d.NoBackingObj? && e.NoBackingObj?)
    || (&& ((d.ChildBirthObj? && e.ChildBirthObj?) || (d.ChildWaitObj? && e.ChildWaitObj?) || (d.ObservedObj? && e.ObservedObj?))
        && d.birth == e.birth && d.role == e.role && d.launchId == e.launchId)
  }

  ghost predicate Alike(items: seq<Json>, others: seq<Json>) {
    |items| == |others| && forall i :: 0 <= i < |items| ==> SameLinks(items[i], others[i])
  }

  lemma AlikeOrderly(items: seq<Json>, others: seq<Json>)
    requires Alike(items, others)
    ensures Orderly(items) ==> Orderly(others)
  {
    hide SameLinks, Pid;
    AlikeFacts(items, others);
    if Orderly(items) {
      AlikeFounded(items, others);
      forall i, j | 0 <= i < j < |others| && IsMention(others[j]) ensures !WaitAt(others, i, others[j].birth) {
        assert !WaitAt(items, i, items[j].birth);
      }
      forall i, j | 0 <= i < j < |others| && IsBirth(others[i]) && IsBirth(others[j])
        ensures others[i].birth != others[j].birth && others[i].launchId != others[j].launchId
      {
        assert items[i].birth != items[j].birth && items[i].launchId != items[j].launchId;
      }
      forall i, j | 0 <= i < j < |others| && IsBirth(others[i]) && IsBirth(others[j]) && Pid(others[i].birth) == Pid(others[j].birth)
        ensures exists k :: i < k < j && WaitAt(others, k, others[i].birth)
      {
        assert items[i].birth == others[i].birth && items[j].birth == others[j].birth;
        var k :| i < k < j && WaitAt(items, k, items[i].birth);
        assert WaitAt(others, k, others[i].birth);
      }
    }
  }

  lemma AlikeFounded(items: seq<Json>, others: seq<Json>)
    requires Alike(items, others) && Founded(items)
    ensures Founded(others)
  {
    hide SameLinks;
    AlikeFacts(items, others);
    forall j | 0 <= j < |others| && IsMention(others[j]) ensures exists i :: i < j && BornAs(others, i, others[j]) {
      var i :| i < j && BornAs(items, i, items[j]);
      AlikeBorn(items, others, i, j);
    }
  }

  lemma AlikeFacts(items: seq<Json>, others: seq<Json>)
    requires Alike(items, others)
    ensures forall i :: 0 <= i < |items| ==>
              && (IsBirth(items[i]) <==> IsBirth(others[i])) && (IsMention(items[i]) <==> IsMention(others[i]))
              && (items[i].ChildWaitObj? <==> others[i].ChildWaitObj?)
              && (IsBirth(items[i]) ==> items[i].birth == others[i].birth && items[i].launchId == others[i].launchId)
              && (IsMention(items[i]) ==> items[i].birth == others[i].birth)
  {
  }

  lemma AlikeBorn(items: seq<Json>, others: seq<Json>, i: int, j: int)
    requires Alike(items, others) && 0 <= i < j < |items| && IsMention(items[j]) && BornAs(items, i, items[j])
    ensures IsMention(others[j]) && BornAs(others, i, others[j])
  {
    assert SameLinks(items[i], others[i]) && SameLinks(items[j], others[j]);
  }

  lemma AlikeWaited(items: seq<Json>, others: seq<Json>)
    requires Alike(items, others)
    ensures AllWaited(items) ==> AllWaited(others)
    ensures forall required :: Covered(items, required) ==> Covered(others, required)
  {
    hide SameLinks;
    AlikeFacts(items, others);
    forall b | Waited(items, b) ensures Waited(others, b) {
      var j :| WaitAt(items, j, b);
      assert WaitAt(others, j, b);
    }
  }

  lemma {:induction false} AlikeBirths(items: seq<Json>, others: seq<Json>)
    requires Alike(items, others)
    ensures Births(items) == Births(others)
  {
    if items != [] {
      var n := |items| - 1;
      AlikeBirths(items[..n], others[..n]);
      assert SameLinks(items[n], others[n]);
    }
  }

  /** One record of an accepted roster replaced by another that links to the
      same child: the roster stays accepted exactly if the new record is genuine.
      So a wrong value in any other field is always noticed. */
  lemma ReplacedRecord(x: Expected, events: seq<Json>, required: seq<Json>, i: int, e: Json)
    requires GoodRoster(x, events, required) && 0 < i < |events| - 1 && SameLinks(events[i], e)
    ensures GoodRoster(x, events[i := e], required) <==> Genuine(x, e)
  {
    hide Genuine, Orderly, AllShaped, AllNormal, AllWaited, Covered, ShapeOk, Births, SameLinks, StartOk, SealSays;
    var n := |events| - 1;
    var items, others, changed := events[1..n], events[1..n][i - 1 := e], events[i := e];
    assert changed[1..n] == others && changed[0] == events[0] && changed[n] == events[n];
    AllGenuine(x, items);
    AllGenuine(x, others);
    assert others[i - 1] == e;
    forall k | 0 <= k < |items| ensures SameLinks(items[k], others[k]) { LinksToItself(x, items[k]); }
    AlikeOrderly(items, others);
    AlikeWaited(items, others);
    AlikeBirths(items, others);
  }

  lemma LinksToItself(x: Expected, e: Json)
    requires Genuine(x, e)
    ensures SameLinks(e, e)
  {
  }
}
