/** Histories a supervisor witness can record, the child table they replay to,
    and why the roster verifier accepts them. */
module SupervisorHistory {
  import opened Values
  import opened Roster
  import opened Events
  import opened Text
  import opened ChildTable

  ghost predicate UnusedLaunch(h: seq<Event>, launch: string) {
    forall i :: 0 <= i < |h| && h[i].Born? ==> h[i].launch != launch
  }

  predicate AllEnded(m: map<int, Child>) { forall p :: p in m ==> m[p].status.Some? }

  predicate AllZero(m: map<int, Child>) { forall p :: p in m && m[p].status.Some? ==> Normal(m[p].status.value) }

  predicate ZeroStatus(status: int) { status == 0 || status == 128 }

  /** The seal's flag, in raw wait statuses. */
  lemma AllZeroMeans(m: map<int, Child>)
    requires AllEnded(m) && forall p :: p in m ==> 0 <= m[p].status.value <= 0xffff
    ensures AllZero(m) <==> forall p :: p in m ==> ZeroStatus(m[p].status.value)
  {
    hide Normal;
    forall p | p in m ensures Normal(m[p].status.value) <==> ZeroStatus(m[p].status.value) {
      NormalStatuses(m[p].status.value);
    }
  }

  /** What the writer guarantees of the next event it records. */
  ghost predicate Allowed(run: string, alnum: char -> bool, h: seq<Event>, e: Event) {
    && h != [] && !h[|h| - 1].Sealed?
    && match e
       case Start(_, _, _, _) => false
       case Born(launch, role, _, _, _) => UnusedLaunch(h, launch) && run + "-" <= launch && Token(alnum, role)
       case Ended(_, _, _, _) => Live(Replay(h), e)
       case Observed(_, _, _, _, _, _) => Live(Replay(h), e)
       case Absent(_, _) => true
       case Sealed(count, allZero) =>
         AllEnded(Replay(h)) && count == |Replay(h)| && allZero == AllZero(Replay(h))
  }

  ghost predicate Legal(run: string, alnum: char -> bool, h: seq<Event>) {
    || h == []
    || (|h| == 1 && h[0].Start?)
    || (Legal(run, alnum, h[..|h| - 1]) && Allowed(run, alnum, h[..|h| - 1], h[|h| - 1]))
  }

  lemma {:induction false} LegalIsLawful(run: string, alnum: char -> bool, h: seq<Event>)
    requires Legal(run, alnum, h)
    ensures Lawful(h)
  {
    if h != [] { LegalIsLawful(run, alnum, h[..|h| - 1]); }
  }

  // ---------------------------------------------------------------- sealed runs and the roster verifier

  lemma {:induction false} LegalAt(run: string, alnum: char -> bool, h: seq<Event>, i: int)
    requires Legal(run, alnum, h) && 1 <= i < |h|
    ensures Legal(run, alnum, h[..i]) && Allowed(run, alnum, h[..i], h[i])
  {
    hide Allowed;
    var n := |h| - 1;
    if i < n {
      LegalAt(run, alnum, h[..n], i);
      assert h[..n][..i] == h[..i] && h[..n][i] == h[i];
    }
  }

  /** What the kernel and the digest guarantee about the data in events. */
  ghost predicate KernelSound(h: seq<Event>) {
    forall i :: 0 <= i < |h| ==>
      && (h[i].Born? ==> BirthOk(BirthValue(h[i].birth)) && Digest(h[i].executable) && Digest(h[i].argv))
      && (h[i].Ended? ==> 0 <= h[i].status <= 0xffff && (Exited(h[i].status) || Signaled(h[i].status)))
  }

  ghost predicate BackingsValid(h: seq<Event>) {
    forall i :: 0 <= i < |h| && (h[i].Absent? || h[i].Observed?) ==> h[i].dev >= 0 && h[i].ino > 0
  }

  ghost predicate ExitsNormal(h: seq<Event>) {
    forall i :: 0 <= i < |h| && h[i].Ended? ==> Normal(h[i].status)
  }

  /** A sealed run of the writer, as the verifier is asked about it. */
  ghost predicate SealedRun(x: Expected, h: seq<Event>) {
    && Legal(x.run, x.alnum, h) && |h| >= 2 && h[|h| - 1].Sealed?
    && h[0].Start? && h[0].broker == None && h[0].parent == x.parent && h[0].code == x.code
    && KernelSound(h)
  }

  /** The roster items of a sealed run. */
  function Items(x: Expected, h: seq<Event>): (items: seq<Json>)
    requires |h| >= 2
    ensures |items| == |h| - 2
    ensures forall k :: 0 <= k < |items| ==> items[k] == Print(x.run, x.boot, h[k + 1])
  {
    Printed(x.run, x.boot, h)[1..|h| - 1]
  }

  lemma MiddleEvent(x: Expected, h: seq<Event>, i: int)
    requires SealedRun(x, h) && 1 <= i < |h| - 1
    ensures h[i].Born? || h[i].Ended? || h[i].Absent? || h[i].Observed?
  {
    hide Legal, Replay, KernelSound, Token, UnusedLaunch;
    LegalAt(x.run, x.alnum, h, i);
    LegalAt(x.run, x.alnum, h, i + 1);
    assert h[..i + 1][i] == h[i];
  }

  lemma ItemShape(x: Expected, h: seq<Event>, k: int)
    requires SealedRun(x, h) && 0 <= k < |h| - 2
    ensures ShapeOk(x, Items(x, h)[k]) <==> (h[k + 1].Absent? || h[k + 1].Observed? ==> h[k + 1].dev >= 0 && h[k + 1].ino > 0)
  {
    hide Legal, Replay, Digest, Token, Items;
    var i := k + 1;
    MiddleEvent(x, h, i);
    if h[i].Ended? || h[i].Observed? {
      var b := MentionFounded(x, h, i);
      BornInLegal(x.run, x.alnum, h, b);
    } else if h[i].Born? {
      BornInLegal(x.run, x.alnum, h, i);
    }
  }

  lemma BornInLegal(run: string, alnum: char -> bool, h: seq<Event>, k: int)
    requires Legal(run, alnum, h) && 0 <= k < |h| && h[k].Born?
    ensures k >= 1 && run + "-" <= h[k].launch && Token(alnum, h[k].role) && UnusedLaunch(h[..k], h[k].launch)
  {
    hide Replay, Token;
    FirstIsStart(run, alnum, h);
    LegalAt(run, alnum, h, k);
  }

  lemma {:induction false} FirstIsStart(run: string, alnum: char -> bool, h: seq<Event>)
    requires Legal(run, alnum, h) && h != []
    ensures h[0].Start?
  {
    if |h| > 1 { FirstIsStart(run, alnum, h[..|h| - 1]); }
  }

  lemma ItemsShaped(x: Expected, h: seq<Event>)
    requires SealedRun(x, h)
    ensures AllShaped(x, Items(x, h)) <==> BackingsValid(h)
  {
    hide Legal, KernelSound, ShapeOk, Items;
    var items := Items(x, h);
    forall k | 0 <= k < |items|
      ensures ShapeOk(x, items[k]) <==> (h[k + 1].Absent? || h[k + 1].Observed? ==> h[k + 1].dev >= 0 && h[k + 1].ino > 0)
    {
      ItemShape(x, h, k);
    }
    if AllShaped(x, items) {
      forall i | 0 <= i < |h| && (h[i].Absent? || h[i].Observed?) ensures h[i].dev >= 0 && h[i].ino > 0 {
        assert ShapeOk(x, items[i - 1]);
      }
    }
  }

  lemma RunUnique(x: Expected, h: seq<Event>)
    requires SealedRun(x, h) && PidsDistinct(h)
    ensures UniqueBirths(Items(x, h)) && OneLivePerPid(Items(x, h))
  {
    hide Legal, KernelSound, Items;
    var items := Items(x, h);
    forall i, j | 0 <= i < j < |items| && IsBirth(items[i]) && IsBirth(items[j])
      ensures items[i].birth != items[j].birth && items[i].launchId != items[j].launchId
      ensures Pid(items[i].birth) != Pid(items[j].birth)
    {
      BornInLegal(x.run, x.alnum, h, j + 1);
      assert h[..j + 1][i + 1] == h[i + 1];
    }
  }

  lemma RunFounded(x: Expected, h: seq<Event>)
    requires SealedRun(x, h)
    ensures Founded(Items(x, h))
  {
    hide Legal, KernelSound, Items;
    var items := Items(x, h);
    forall j | 0 <= j < |items| && IsMention(items[j])
      ensures exists i :: i < j && BornAs(items, i, items[j])
    {
      var i := MentionFounded(x, h, j + 1);
      assert BornAs(items, i - 1, items[j]);
    }
  }

  lemma MentionFounded(x: Expected, h: seq<Event>, j: int) returns (i: int)
    requires SealedRun(x, h) && 1 <= j < |h| && (h[j].Ended? || h[j].Observed?)
    ensures 1 <= i < j && h[i].Born? && h[i].birth == h[j].birth && h[i].role == h[j].role && h[i].launch == h[j].launch
  {
    hide Replay, KernelSound, Lawful, Legal;
    LegalAt(x.run, x.alnum, h, j);
    LegalIsLawful(x.run, x.alnum, h[..j]);
    ReplayGrounded(h[..j]);
    i :| BirthOf(h[..j], i, Replay(h[..j])[h[j].birth.pid]);
  }

  lemma RunWaitIsLast(x: Expected, h: seq<Event>)
    requires SealedRun(x, h) && PidsDistinct(h)
    ensures WaitIsLast(Items(x, h))
  {
    hide Legal, KernelSound, Items, PidsDistinct;
    var items := Items(x, h);
    forall i, j | 0 <= i < j < |items| && IsMention(items[j])
      ensures !WaitAt(items, i, items[j].birth)
    {
      NotEndedBefore(x, h, i + 1, j + 1);
    }
  }

  lemma NotEndedBefore(x: Expected, h: seq<Event>, i: int, j: int)
    requires SealedRun(x, h) && PidsDistinct(h)
    requires 1 <= i < j < |h| && (h[j].Ended? || h[j].Observed?)
    ensures !(h[i].Ended? && h[i].birth == h[j].birth)
  {
    hide Replay, KernelSound, Lawful, Legal;
    LegalAt(x.run, x.alnum, h, j);
    var front := h[..j];
    LegalIsLawful(x.run, x.alnum, front);
    assert PidsDistinct(front);
    if h[i].Ended? {
      EndedStays(front, i);
      assert front[i] == h[i];
    }
  }

  lemma RunAllWaited(x: Expected, h: seq<Event>)
    requires SealedRun(x, h) && PidsDistinct(h)
    ensures AllWaited(Items(x, h))
  {
    hide Legal, KernelSound, Items, PidsDistinct;
    var items := Items(x, h);
    forall i | 0 <= i < |items| && IsBirth(items[i])
      ensures Waited(items, items[i].birth)
    {
      var j := BirthEnds(x, h, i + 1);
      assert WaitAt(items, j - 1, items[i].birth);
    }
  }

  lemma BirthEnds(x: Expected, h: seq<Event>, i: int) returns (j: int)
    requires SealedRun(x, h) && PidsDistinct(h)
    requires 1 <= i < |h| - 1 && h[i].Born?
    ensures 1 <= j < |h| - 1 && h[j].Ended? && h[j].birth == h[i].birth
  {
    hide Replay, KernelSound, Lawful, Legal;
    var n := |h| - 1;
    var front := h[..n];
    LegalAt(x.run, x.alnum, h, n);
    LegalIsLawful(x.run, x.alnum, front);
    assert front[i] == h[i] && PidsDistinct(front);
    ReplayKeeps(front, i);
    ReplayGrounded(front);
    var c := Replay(front)[h[i].birth.pid];
    j :| EndOf(front, j, c.birth, c.status.value);
    assert front[0] == h[0];
  }

  lemma RunNormal(x: Expected, h: seq<Event>)
    requires SealedRun(x, h)
    ensures AllNormal(Items(x, h)) <==> ExitsNormal(h)
  {
    hide Legal, KernelSound, Items, Normal;
    var items := Items(x, h);
    if AllNormal(items) {
      forall i | 0 <= i < |h| && h[i].Ended? ensures Normal(h[i].status) {
        assert items[i - 1].ChildWaitObj?;
      }
    }
  }

  lemma RunSeal(x: Expected, h: seq<Event>)
    requires SealedRun(x, h) && ExitsNormal(h)
    ensures SealSays(x, Print(x.run, x.boot, h[|h| - 1]), Births(Items(x, h))) <==> PidsDistinct(h)
  {
    hide Replay, KernelSound, Lawful, Legal, Normal, ExitsNormal, AllZero, AllEnded, PidsDistinct;
    var n := |h| - 1;
    var front := h[..n];
    LegalAt(x.run, x.alnum, h, n);
    LegalIsLawful(x.run, x.alnum, front);
    CountReplay(front);
    BirthsCount(x, h, n);
    ZeroExits(x.run, x.alnum, h);
    DistinctFront(h);
  }

  lemma ZeroExits(run: string, alnum: char -> bool, h: seq<Event>)
    requires h != [] && Legal(run, alnum, h[..|h| - 1]) && ExitsNormal(h)
    ensures AllZero(Replay(h[..|h| - 1]))
  {
    hide Replay, Legal, Normal;
    var front := h[..|h| - 1];
    LegalIsLawful(run, alnum, front);
    ReplayGrounded(front);
    forall p | p in Replay(front) && Replay(front)[p].status.Some? ensures Normal(Replay(front)[p].status.value) {
      var c := Replay(front)[p];
      var j :| EndOf(front, j, c.birth, c.status.value);
      assert h[j] == front[j];
    }
  }

  lemma {:induction false} BirthsCount(x: Expected, h: seq<Event>, k: int)
    requires 1 <= k <= |h| && h[0].Start?
    ensures Births(Printed(x.run, x.boot, h)[1..k]) == BornCount(h[..k])
  {
    hide Printed, Print, IsBirth;
    var js := Printed(x.run, x.boot, h);
    if k == 1 {
      assert js[1..1] == [] && h[..1][..0] == [];
    } else {
      BirthsCount(x, h, k - 1);
      LastOf(js, 1, k);
      LastOf(h, 0, k);
      assert js[1..k][k - 2] == Print(x.run, x.boot, h[k - 1]);
      PrintsBirth(x.run, x.boot, h[k - 1]);
    }
  }

  lemma LastOf<T>(s: seq<T>, lo: int, hi: int)
    requires 0 <= lo < hi <= |s|
    ensures s[lo..hi][..hi - lo - 1] == s[lo..hi - 1] && s[lo..hi][hi - lo - 1] == s[hi - 1]
  {
  }

  lemma PrintsBirth(run: string, boot: string, e: Event)
    ensures IsBirth(Print(run, boot, e)) <==> e.Born?
  {
  }

  /** A required birth is one of the roster's own. */
  ghost predicate FromRoster(h: seq<Event>, required: seq<Json>) {
    forall r :: 0 <= r < |required| ==> exists i :: BornWith(h, i, required[r])
  }

  predicate BornWith(h: seq<Event>, i: int, v: Json) { 0 <= i < |h| && h[i].Born? && BirthValue(h[i].birth) == v }

  lemma RunCovered(x: Expected, h: seq<Event>, required: seq<Json>)
    requires SealedRun(x, h) && PidsDistinct(h) && FromRoster(h, required)
    ensures Covered(Items(x, h), required)
  {
    hide Legal, KernelSound, Items, PidsDistinct;
    var items := Items(x, h);
    forall r | 0 <= r < |required| ensures Waited(items, required[r]) {
      var v := required[r];
      var i :| BornWith(h, i, v);
      var j := BirthEnds(x, h, i);
      assert WaitAt(items, j - 1, v);
    }
  }

  /** A sealed run of the supervisor is accepted by the roster verifier, for
      any required births from its roster, exactly when no pid was reused,
      every exit was normal and every backing identity is valid. */
  lemma SealedRunAccepted(x: Expected, h: seq<Event>, required: seq<Json>)
    requires SealedRun(x, h) && FromRoster(h, required)
    ensures GoodRoster(x, Printed(x.run, x.boot, h), required) <==>
            PidsDistinct(h) && ExitsNormal(h) && BackingsValid(h)
  {
    hide Legal, KernelSound, PidsDistinct, ExitsNormal, BackingsValid, AllShaped, SealSays, AllNormal, AllWaited, Covered, FromRoster;
    hide UniqueBirths, Founded, WaitIsLast, OneLivePerPid;
    var events := Printed(x.run, x.boot, h);
    assert events[1..|events| - 1] == Items(x, h);
    assert StartOk(x, events[0]);
    ItemsShaped(x, h);
    RunNormal(x, h);
    RunFounded(x, h);
    if ExitsNormal(h) { RunSeal(x, h); }
    if PidsDistinct(h) {
      RunUnique(x, h);
      RunWaitIsLast(x, h);
      RunAllWaited(x, h);
      RunCovered(x, h, required);
    }
  }

  ghost predicate ZeroEnds(h: seq<Event>) { forall j :: 0 <= j < |h| && h[j].Ended? ==> ZeroStatus(h[j].status) }

  /** What the seal of a run says: it counts the children left in the table, and
      its flag is set exactly when each of them exited with raw status 0 or 128.
      Without pid reuse that is every exit of the run. */
  lemma SealFlag(x: Expected, h: seq<Event>)
    requires SealedRun(x, h)
    ensures h[|h| - 1].count == |Replay(h)|
    ensures h[|h| - 1].allZero <==> forall p :: p in Replay(h) ==> Replay(h)[p].status == Some(0) || Replay(h)[p].status == Some(128)
    ensures PidsDistinct(h) ==> (h[|h| - 1].allZero <==> ZeroEnds(h))
  {
    hide Replay, KernelSound, Lawful, Legal, AllZero, PidsDistinct;
    var n := |h| - 1;
    var front := h[..n];
    LegalAt(x.run, x.alnum, h, n);
    LegalIsLawful(x.run, x.alnum, front);
    ReplayOfSealed(h);
    TableStatuses(x, h);
    AllZeroMeans(Replay(front));
    if PidsDistinct(h) { FlagSeesAll(x, h); }
  }

  lemma ReplayOfSealed(h: seq<Event>)
    requires h != [] && h[|h| - 1].Sealed?
    ensures Replay(h) == Replay(h[..|h| - 1])
  {
  }

  /** Every status in the table is one the kernel reported. */
  lemma TableStatuses(x: Expected, h: seq<Event>)
    requires SealedRun(x, h)
    ensures var m := Replay(h[..|h| - 1]);
            forall p :: p in m && m[p].status.Some? ==> 0 <= m[p].status.value <= 0xffff
  {
    hide Replay, Lawful, Legal;
    var front := h[..|h| - 1];
    LegalAt(x.run, x.alnum, h, |h| - 1);
    LegalIsLawful(x.run, x.alnum, front);
    ReplayGrounded(front);
    var m := Replay(front);
    forall p | p in m && m[p].status.Some? ensures 0 <= m[p].status.value <= 0xffff {
      var j :| EndOf(front, j, m[p].birth, m[p].status.value);
      assert h[j] == front[j];
    }
  }

  lemma FlagSeesAll(x: Expected, h: seq<Event>)
    requires SealedRun(x, h) && PidsDistinct(h)
    ensures var m := Replay(h[..|h| - 1]);
            AllEnded(m) ==> (ZeroEnds(h) <==> forall p :: p in m ==> ZeroStatus(m[p].status.value))
  {
    hide Replay, KernelSound, Lawful, Legal;
    var n := |h| - 1;
    var front, m := h[..n], Replay(h[..n]);
    LegalAt(x.run, x.alnum, h, n);
    LegalIsLawful(x.run, x.alnum, front);
    ReplayGrounded(front);
    assert PidsDistinct(front);
    assert forall j :: 0 <= j < n ==> front[j] == h[j];
    if AllEnded(m) && ZeroEnds(h) {
      forall p | p in m ensures ZeroStatus(m[p].status.value) {
        var j :| EndOf(front, j, m[p].birth, m[p].status.value);
      }
    }
    if AllEnded(m) && forall p :: p in m ==> ZeroStatus(m[p].status.value) {
      forall j | 0 <= j < |h| && h[j].Ended? ensures ZeroStatus(h[j].status) {
        EndedStays(front, j);
      }
    }
  }
}
