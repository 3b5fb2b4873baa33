/** Histories the deployment witness can record, and what a seal at the end of
    one means. */
module DeploymentHistory {
  import opened Values
  import opened Roster
  import opened Events
  import opened Text
  import opened ChildTable

  type Resource = (int, int)

  /** Backings observed in each child, and backings the witness itself was
      observed not to hold. */
  datatype Holdings = Holdings(resources: map<int, set<Resource>>, absent: set<Resource>)

  function NextHoldings(x: Holdings, e: Event): Holdings {
    match e
    case Born(_, _, birth, _, _) => x.(resources := x.resources[birth.pid := {}])
    case Observed(_, _, birth, dev, ino, _) =>
      if birth.pid in x.resources
      then x.(resources := x.resources[birth.pid := x.resources[birth.pid] + {(dev, ino)}]) else x
    case Absent(dev, ino) => x.(absent := x.absent + {(dev, ino)})
    case _ => x
  }

  function ReplayHoldings(h: seq<Event>): Holdings {
    if h == [] then Holdings(map[], {}) else NextHoldings(ReplayHoldings(h[..|h| - 1]), h[|h| - 1])
  }

  /** What one event of a journal file does to the holdings of its reader. */
  function HoldingsInFile(x: Holdings, v: Json): Holdings {
    match v
    case ChildBirthObj(_, _, _, _, _, birth, _, _, _) =>
      (match BirthRead(birth) case Some(b) => x.(resources := x.resources[b.pid := {}]) case None => x)
    case ObservedObj(_, _, _, _, _, birth, Num(dev), Num(ino), _, _) =>
      (match BirthRead(birth)
       case Some(b) =>
         if b.pid in x.resources then x.(resources := x.resources[b.pid := x.resources[b.pid] + {(dev, ino)}]) else x
       case None => x)
    case NoBackingObj(_, _, _, Num(dev), Num(ino)) => x.(absent := x.absent + {(dev, ino)})
    case _ => x
  }

  /** The holdings rebuilt from the events of a journal file alone. */
  function HoldingsFile(vs: seq<Json>): Holdings {
    if vs == [] then Holdings(map[], {}) else HoldingsInFile(HoldingsFile(vs[..|vs| - 1]), vs[|vs| - 1])
  }

  lemma {:induction false} FileHoldings(run: string, boot: string, h: seq<Event>)
    ensures HoldingsFile(Printed(run, boot, h)) == ReplayHoldings(h)
  {
    if h != [] {
      var n := |h| - 1;
      FileHoldings(run, boot, h[..n]);
      assert Printed(run, boot, h)[..n] == Printed(run, boot, h[..n]);
      hide Printed, ReplayHoldings, HoldingsFile;
      PrintedHoldings(run, boot, ReplayHoldings(h[..n]), h[n]);
    }
  }

  lemma PrintedHoldings(run: string, boot: string, x: Holdings, e: Event)
    ensures HoldingsInFile(x, Print(run, boot, e)) == NextHoldings(x, e)
  {
  }

  const BROKER: string := "broker"

  predicate ValidResource(dev: int, ino: int) { dev >= 0 && ino > 0 }

  predicate AllExitedZero(m: map<int, Child>) { forall p :: p in m ==> m[p].status == Some(0) }

  /** What the writer guarantees of the next event it records. */
  predicate Allowed(run: string, h: seq<Event>, e: Event) {
    && h != [] && !h[|h| - 1].Sealed?
    && match e
       case Start(_, _, _, _) => false
       case Born(launch, role, _, _, _) =>
         launch == Launch(run, |Replay(h)| + 1) && (role == BROKER <==> Replay(h) == map[])
       case Ended(_, _, _, _) => Live(Replay(h), e)
       case Observed(_, _, birth, dev, ino, _) =>
         && Live(Replay(h), e) && ValidResource(dev, ino)
         && birth.pid in ReplayHoldings(h).resources && (dev, ino) !in ReplayHoldings(h).resources[birth.pid]
       case Absent(dev, ino) => ValidResource(dev, ino) && (dev, ino) !in ReplayHoldings(h).absent
       case Sealed(count, allZero) =>
         Replay(h) != map[] && AllExitedZero(Replay(h)) && count == |Replay(h)| && allZero
  }

  predicate Legal(run: string, h: seq<Event>) {
    || h == []
    || (|h| == 1 && h[0].Start?)
    || (Legal(run, h[..|h| - 1]) && Allowed(run, h[..|h| - 1], h[|h| - 1]))
  }

  lemma {:induction false} LegalIsLawful(run: string, h: seq<Event>)
    requires Legal(run, h)
    ensures Lawful(h)
  {
    if h != [] { LegalIsLawful(run, h[..|h| - 1]); }
  }

  lemma Extend(run: string, boot: string, h: seq<Event>, e: Event)
    requires Legal(run, h) && Allowed(run, h, e)
    ensures Legal(run, h + [e])
    ensures Replay(h + [e]) == Next(Replay(h), e) && ReplayHoldings(h + [e]) == NextHoldings(ReplayHoldings(h), e)
    ensures Printed(run, boot, h + [e]) == Printed(run, boot, h) + [Print(run, boot, e)]
  {
    PrintedSnoc(run, boot, h, e);
    assert (h + [e])[..|h|] == h;
  }

  lemma {:induction false} LegalAt(run: string, h: seq<Event>, i: int)
    requires Legal(run, h) && 1 <= i < |h|
    ensures Legal(run, h[..i]) && Allowed(run, h[..i], h[i])
  {
    hide Allowed;
    var n := |h| - 1;
    if i < n {
      LegalAt(run, h[..n], i);
      assert h[..n][..i] == h[..i] && h[..n][i] == h[i];
    }
  }

  lemma {:induction false} FirstIsStart(run: string, h: seq<Event>)
    requires Legal(run, h) && h != []
    ensures h[0].Start?
  {
    if |h| > 1 { FirstIsStart(run, h[..|h| - 1]); }
  }

  /** The table and the resource map have the same pids. */
  lemma {:induction false} SamePids(h: seq<Event>)
    ensures Replay(h).Keys == ReplayHoldings(h).resources.Keys
  {
    if h != [] { SamePids(h[..|h| - 1]); }
  }

  // ---------------------------------------------------------------- the broker

  /** A table without children means a journal without births. */
  lemma {:induction false} NoChildrenNoBirths(h: seq<Event>)
    ensures Replay(h) == map[] <==> forall i :: 0 <= i < |h| ==> !h[i].Born?
  {
    if h != [] {
      var n := |h| - 1;
      var front := h[..n];
      NoChildrenNoBirths(front);
      assert forall i :: 0 <= i < n ==> front[i] == h[i];
      if h[n].Born? {
        assert h[n].birth.pid in Replay(h);
      } else {
        assert Replay(h).Keys == Replay(front).Keys;
      }
    }
  }

  /** The first child of a run is the broker and no other child is. */
  lemma OneBrokerFirst(run: string, h: seq<Event>, i: int)
    requires Legal(run, h) && 0 <= i < |h| && h[i].Born?
    ensures h[i].role == "broker" <==> forall j :: 0 <= j < i ==> !h[j].Born?
  {
    hide Replay;
    FirstIsStart(run, h);
    LegalAt(run, h, i);
    NoChildrenNoBirths(h[..i]);
    assert forall j :: 0 <= j < i ==> h[..i][j] == h[j];
  }

  // ---------------------------------------------------------------- sealed runs

  /** A seal in the journal counts a non-empty table whose every child exited
      with status zero. The count is the number of births exactly when no pid
      was reused. Every recorded exit was zero exactly when no birth overwrote a
      failure, and every birth has its own wait exactly when none overwrote a
      child not yet reaped; without pid reuse both hold. */
  lemma SealMeans(run: string, h: seq<Event>)
    requires Legal(run, h) && h != [] && h[|h| - 1].Sealed?
    ensures h[|h| - 1].allZero && h[|h| - 1].count > 0
    ensures h[|h| - 1].count == BornCount(h) <==> PidsDistinct(h)
    ensures EndsZero(h) <==> NoFailureLost(h)
    ensures (forall i :: 0 <= i < |h| && h[i].Born? ==> HasOwnEnd(h, i)) <==> NoLiveLost(h)
    ensures PidsDistinct(h) ==> EndsZero(h) && NoLiveLost(h)
    ensures PidsDistinct(h) ==> forall i :: 0 <= i < |h| && h[i].Born? ==> HasEnd(h, h[i].birth, 0)
  {
    hide Replay, ReplayHoldings, BornCount, Grounded, Legal, Lawful;
    FirstIsStart(run, h);
    var n := |h| - 1;
    var front := h[..n];
    LegalAt(run, h, n);
    LegalIsLawful(run, front);
    assert forall i :: 0 <= i < n ==> front[i] == h[i];
    CountReplay(front);
    DistinctFront(h);
    SealNotBorn(h);
    assert Replay(front).Keys != {};
    SealReplays(h);
    LegalIsLawful(run, h);
    FailuresLost(h);
    WaitsLost(h);
    if PidsDistinct(h) {
      NothingFound(h);
      forall j | 0 <= j < |h| && h[j].Ended? ensures h[j].status == 0 {
        EndedStays(front, j);
      }
      forall i | 0 <= i < |h| && h[i].Born? ensures HasEnd(h, h[i].birth, 0) {
        BornEnds(front, i);
        var j :| EndOf(front, j, h[i].birth, 0);
        assert EndOf(h, j, h[i].birth, 0);
      }
    }
  }

  lemma SealNotBorn(h: seq<Event>)
    requires h != [] && h[|h| - 1].Sealed?
    ensures BornCount(h) == BornCount(h[..|h| - 1])
  {
  }

  lemma SealReplays(h: seq<Event>)
    requires h != [] && h[|h| - 1].Sealed?
    ensures Replay(h) == Replay(h[..|h| - 1])
  {
  }

  /** Without pid reuse no birth finds an entry under its pid. */
  lemma NothingFound(h: seq<Event>)
    requires Lawful(h) && PidsDistinct(h)
    ensures NoLiveLost(h)
  {
    hide Replay, Lawful, Live;
    forall j | 0 <= j < |h| && h[j].Born? ensures Found(h, j) == None {
      LawfulFront(h, j);
      ReplayGrounded(h[..j]);
      assert forall i :: 0 <= i < j ==> h[..j][i] == h[i];
    }
  }

  lemma BornEnds(h: seq<Event>, i: int)
    requires Lawful(h) && PidsDistinct(h) && AllExitedZero(Replay(h))
    requires 0 <= i < |h| && h[i].Born?
    ensures HasEnd(h, h[i].birth, 0)
  {
    hide Replay, Lawful;
    ReplayGrounded(h);
    ReplayKeeps(h, i);
  }

  /** With pid reuse the seal can be wrong: a child that exited with status 1
      is overwritten by a later child under its pid, and the seal still says
      that all exits were normal zero. */
  lemma ReusedPidHidesFailure(run: string, h: seq<Event>)
    requires ReusedPid(run, h)
    ensures Legal(run, h) && h[|h| - 1] == Sealed(1, true) && h[2].Ended? && h[2].status == 256
  {
    hide Launch, ReplayHoldings;
    var b := h[1].birth;
    var c1, c2 := Child(b, Launch(run, 1), BROKER, None), Child(h[3].birth, Launch(run, 2), "w", None);
    assert h[..1][..0] == [];
    assert Replay(h[..1]) == map[];
    Follow(run, h, 1, map[7 := c1]);
    Follow(run, h, 2, map[7 := c1.(status := Some(256))]);
    Follow(run, h, 3, map[7 := c2]);
    Follow(run, h, 4, map[7 := c2.(status := Some(0))]);
    Follow(run, h, 5, map[7 := c2.(status := Some(0))]);
    assert h[..6] == h;
  }

  predicate ReusedPid(run: string, h: seq<Event>) {
    && |h| == 6
    && var b := Birth(7, 0, 0, 1, 1, 1);
       var b' := Birth(7, 0, 0, 1, 1, 2);
       && h[0] == Start(Some("b"), b, "c", "i")
       && h[1] == Born(Launch(run, 1), BROKER, b, "", "")
       && h[2] == Ended(Launch(run, 1), BROKER, b, 256)
       && h[3] == Born(Launch(run, 2), "w", b', "", "")
       && h[4] == Ended(Launch(run, 2), "w", b', 0)
       && h[5] == Sealed(1, true)
  }

  lemma Follow(run: string, h: seq<Event>, i: nat, after: map<int, Child>)
    requires 1 <= i < |h| && Legal(run, h[..i]) && Allowed(run, h[..i], h[i]) && Next(Replay(h[..i]), h[i]) == after
    ensures Legal(run, h[..i + 1]) && Replay(h[..i + 1]) == after
  {
    hide Allowed, Legal, Replay, Printed, Print;
    Extend(run, "", h[..i], h[i]);
    assert h[..i] + [h[i]] == h[..i + 1];
  }

  // ---------------------------------------------------------------- launch identities

  lemma {:induction false} KeysStay(h: seq<Event>, i: int, j: int)
    requires 0 <= i <= j <= |h|
    ensures Replay(h[..i]).Keys <= Replay(h[..j]).Keys
    ensures (forall k :: i <= k < j ==> !h[k].Born?) ==> Replay(h[..i]).Keys == Replay(h[..j]).Keys
    decreases j
  {
    if i < j {
      KeysStay(h, i, j - 1);
      assert h[..j][..j - 1] == h[..j - 1] && h[..j][j - 1] == h[j - 1];
    }
  }

  lemma BirthKeys(h: seq<Event>, i: int)
    requires 0 <= i < |h| && h[i].Born?
    ensures Replay(h[..i + 1]).Keys == Replay(h[..i]).Keys + {h[i].birth.pid}
  {
    assert h[..i + 1][..i] == h[..i];
  }

  ghost predicate LaunchesUnique(h: seq<Event>) {
    forall i, j :: 0 <= i < j < |h| && h[i].Born? && h[j].Born? ==> h[i].launch != h[j].launch
  }

  /** Launch identities number the entries of the table: they are unique exactly
      when every birth that is followed by another found its pid unused. */
  lemma LaunchesUniqueIff(run: string, h: seq<Event>)
    requires Legal(run, h)
    ensures LaunchesUnique(h) <==>
            forall i, j :: 0 <= i < j < |h| && h[i].Born? && h[j].Born? ==> Found(h, i) == None
  {
    hide Replay, Legal, Launch;
    if LaunchesUnique(h) {
      forall i, j | 0 <= i < j < |h| && h[i].Born? && h[j].Born? ensures Found(h, i) == None {
        if Found(h, i).Some? { SameLaunchNext(run, h, i, j); }
      }
    }
    if forall i, j :: 0 <= i < j < |h| && h[i].Born? && h[j].Born? ==> Found(h, i) == None {
      forall i, j | 0 <= i < j < |h| && h[i].Born? && h[j].Born? ensures h[i].launch != h[j].launch {
        assert Found(h, i) == None;
        LaunchGrows(run, h, i, j);
      }
    }
  }

  lemma LaunchIs(run: string, h: seq<Event>, i: int)
    requires Legal(run, h) && 0 <= i < |h| && h[i].Born?
    ensures h[i].launch == Launch(run, |Replay(h[..i]).Keys| + 1)
  {
    hide Replay, Launch, ReplayHoldings;
    FirstIsStart(run, h);
    LegalAt(run, h, i);
    assert |Replay(h[..i])| == |Replay(h[..i]).Keys|;
  }

  lemma SubsetSize(a: set<int>, b: set<int>)
    requires a <= b
    ensures |a| <= |b|
  {
    assert b == a + (b - a);
  }

  lemma LaunchGrows(run: string, h: seq<Event>, i: int, j: int)
    requires Legal(run, h) && 0 <= i < j < |h| && h[i].Born? && h[j].Born? && Found(h, i) == None
    ensures h[i].launch != h[j].launch
  {
    hide Replay, Legal, Launch;
    LaunchIs(run, h, i);
    LaunchIs(run, h, j);
    KeysStay(h, i + 1, j);
    BirthKeys(h, i);
    var a, b := Replay(h[..i]).Keys, Replay(h[..j]).Keys;
    SubsetSize(a + {h[i].birth.pid}, b);
    if h[i].launch == h[j].launch { LaunchInjective(run, |a| + 1, |b| + 1); }
  }

  lemma SameLaunchNext(run: string, h: seq<Event>, i: int, j: int)
    requires Legal(run, h) && 0 <= i < j < |h| && h[i].Born? && h[j].Born? && Found(h, i).Some?
    ensures !LaunchesUnique(h)
  {
    hide Replay, Legal, Launch;
    var k := i + 1;
    while !h[k].Born?
      invariant i < k <= j && forall l :: i < l < k ==> !h[l].Born?
      decreases j - k
    {
      k := k + 1;
    }
    LaunchIs(run, h, i);
    LaunchIs(run, h, k);
    BirthKeys(h, i);
    KeysStay(h, i + 1, k);
    assert Replay(h[..i]).Keys + {h[i].birth.pid} == Replay(h[..i]).Keys;
  }
}
