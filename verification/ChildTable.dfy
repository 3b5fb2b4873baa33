/** The child table both witnesses keep, keyed by pid, and its replay from the
    journal alone. */
module ChildTable {
  import opened Values
  import opened Roster
  import opened Events

  datatype Child = Child(birth: Birth, launch: string, role: string, status: Option<int>)

  function Next(m: map<int, Child>, e: Event): map<int, Child> {
    match e
    case Born(launch, role, birth, _, _) => m[birth.pid := Child(birth, launch, role, None)]
    case Ended(_, _, birth, status) =>
      if birth.pid in m then m[birth.pid := m[birth.pid].(status := Some(status))] else m
    case _ => m
  }

  lemma BornNext(m: map<int, Child>, e: Event)
    requires e.Born?
    ensures Next(m, e) == m[e.birth.pid := Child(e.birth, e.launch, e.role, None)]
  {
  }

  /** The child table rebuilt from the journal. */
  function Replay(h: seq<Event>): map<int, Child> {
    if h == [] then map[] else Next(Replay(h[..|h| - 1]), h[|h| - 1])
  }

  // ---------------------------------------------------------------- replay of the file

  /** What one event of a journal file does to the table of its reader. */
  function NextInFile(m: map<int, Child>, v: Json): map<int, Child> {
    match v
    case ChildBirthObj(_, _, Str(launch), _, Str(role), birth, _, _, _) =>
      (match BirthRead(birth) case Some(b) => m[b.pid := Child(b, launch, role, None)] case None => m)
    case ChildWaitObj(_, _, _, _, _, birth, Num(status), _) =>
      (match BirthRead(birth)
       case Some(b) => if b.pid in m then m[b.pid := m[b.pid].(status := Some(status))] else m
       case None => m)
    case _ => m
  }

  /** The child table rebuilt from the events of a journal file alone. */
  function ReplayFile(vs: seq<Json>): map<int, Child> {
    if vs == [] then map[] else NextInFile(ReplayFile(vs[..|vs| - 1]), vs[|vs| - 1])
  }

  lemma {:induction false} FileReplays(run: string, boot: string, h: seq<Event>)
    ensures ReplayFile(Printed(run, boot, h)) == Replay(h)
  {
    if h != [] {
      var n := |h| - 1;
      FileReplays(run, boot, h[..n]);
      assert Printed(run, boot, h)[..n] == Printed(run, boot, h[..n]);
      hide Printed, Replay, ReplayFile;
      PrintedStep(run, boot, Replay(h[..n]), h[n]);
    }
  }

  lemma PrintedStep(run: string, boot: string, m: map<int, Child>, e: Event)
    ensures NextInFile(m, Print(run, boot, e)) == Next(m, e)
  {
  }

  /** `e` speaks of a child that the table holds and that was not waited for. */
  predicate Live(m: map<int, Child>, e: Event)
    requires e.Ended? || e.Observed?
  {
    e.birth.pid in m && m[e.birth.pid] == Child(e.birth, e.launch, e.role, None)
  }

  /** Waits and observations are only ever recorded of live children. */
  predicate Lawful(h: seq<Event>) {
    h != [] ==>
      && Lawful(h[..|h| - 1])
      && (h[|h| - 1].Ended? || h[|h| - 1].Observed? ==> Live(Replay(h[..|h| - 1]), h[|h| - 1]))
  }

  lemma {:induction false} LawfulAt(h: seq<Event>, i: int)
    requires Lawful(h) && 0 <= i < |h|
    ensures Lawful(h[..i]) && (h[i].Ended? || h[i].Observed? ==> Live(Replay(h[..i]), h[i]))
  {
    hide Live;
    var n := |h| - 1;
    if i < n {
      LawfulAt(h[..n], i);
      assert h[..n][..i] == h[..i] && h[..n][i] == h[i];
    }
  }

  // ---------------------------------------------------------------- what an entry means

  /** `h[i]` is the birth of the child `c`. */
  predicate BirthOf(h: seq<Event>, i: int, c: Child) {
    0 <= i < |h| && h[i].Born? && h[i].birth == c.birth && h[i].launch == c.launch && h[i].role == c.role
  }

  predicate EndOf(h: seq<Event>, j: int, b: Birth, status: int) {
    0 <= j < |h| && h[j].Ended? && h[j].birth == b && h[j].status == status
  }

  ghost predicate HasBirth(h: seq<Event>, c: Child) { exists i :: BirthOf(h, i, c) }

  ghost predicate HasEnd(h: seq<Event>, b: Birth, status: int) { exists j :: EndOf(h, j, b, status) }

  /** Every table entry comes from a recorded birth, sits under its own pid,
      and has a status only if a wait with that status was recorded. */
  ghost predicate Grounded(h: seq<Event>, m: map<int, Child>) {
    forall p :: p in m ==>
      m[p].birth.pid == p && HasBirth(h, m[p]) && (m[p].status.Some? ==> HasEnd(h, m[p].birth, m[p].status.value))
  }

  lemma {:induction false} ReplayGrounded(h: seq<Event>)
    requires Lawful(h)
    ensures Grounded(h, Replay(h))
    ensures forall i :: 0 <= i < |h| && h[i].Born? ==> h[i].birth.pid in Replay(h)
  {
    if h != [] {
      var n := |h| - 1;
      var front := h[..n];
      assert forall i :: 0 <= i < n ==> front[i] == h[i];
      ReplayGrounded(front);
      GroundedNext(front, h[n]);
      assert front + [h[n]] == h;
    }
  }

  lemma GroundedNext(h: seq<Event>, e: Event)
    requires Grounded(h, Replay(h)) && (e.Ended? ==> Live(Replay(h), e))
    ensures Grounded(h + [e], Next(Replay(h), e))
  {
    hide Replay;
    var m, m', all := Replay(h), Next(Replay(h), e), h + [e];
    assert all[|h|] == e && forall i :: 0 <= i < |h| ==> all[i] == h[i];
    forall p | p in m'
      ensures m'[p].birth.pid == p && HasBirth(all, m'[p])
      ensures m'[p].status.Some? ==> HasEnd(all, m'[p].birth, m'[p].status.value)
    {
      var c := m'[p];
      if e.Born? && p == e.birth.pid {
        assert BirthOf(all, |h|, c);
      } else {
        var i :| BirthOf(h, i, m[p]);
        assert BirthOf(all, i, c);
        if c.status.Some? {
          if e.Ended? && p == e.birth.pid {
            assert EndOf(all, |h|, c.birth, e.status);
          } else {
            var j :| EndOf(h, j, m[p].birth, m[p].status.value);
            assert EndOf(all, j, c.birth, c.status.value);
          }
        }
      }
    }
  }

  // ---------------------------------------------------------------- pid reuse

  ghost predicate PidsDistinct(h: seq<Event>) {
    forall i, j :: 0 <= i < j < |h| && h[i].Born? && h[j].Born? ==> h[i].birth.pid != h[j].birth.pid
  }

  function BornCount(h: seq<Event>): nat {
    if h == [] then 0 else BornCount(h[..|h| - 1]) + if h[|h| - 1].Born? then 1 else 0
  }

  /** Without pid reuse nothing in the table is overwritten: the entry of a
      child is its own birth. */
  lemma ReplayKeeps(h: seq<Event>, i: int)
    requires Lawful(h) && PidsDistinct(h)
    requires 0 <= i < |h| && h[i].Born?
    ensures h[i].birth.pid in Replay(h) && BirthOf(h, i, Replay(h)[h[i].birth.pid])
  {
    hide Replay, Lawful;
    ReplayGrounded(h);
    var k :| BirthOf(h, k, Replay(h)[h[i].birth.pid]);
    assert k == i;
  }

  /** Without pid reuse a child that was waited for keeps its status. */
  lemma {:induction false} EndedStays(h: seq<Event>, j: int)
    requires Lawful(h) && PidsDistinct(h)
    requires 0 <= j < |h| && h[j].Ended?
    ensures h[j].birth.pid in Replay(h) && Replay(h)[h[j].birth.pid].status == Some(h[j].status)
  {
    var n := |h| - 1;
    var front := h[..n];
    assert forall i :: 0 <= i < n ==> front[i] == h[i];
    if j < n {
      EndedStays(front, j);
      if h[n].Born? {
        ReplayGrounded(front);
        var p := h[j].birth.pid;
        var i :| BirthOf(front, i, Replay(front)[p]);
        assert h[i].birth.pid != h[n].birth.pid;
      } else if h[n].Ended? {
        assert Live(Replay(front), h[n]);
      }
    }
  }

  /** The table is as large as the roster exactly when no pid was reused. */
  lemma {:induction false} CountReplay(h: seq<Event>)
    requires Lawful(h)
    ensures |Replay(h)| <= BornCount(h)
    ensures |Replay(h)| == BornCount(h) <==> PidsDistinct(h)
  {
    hide Live, Grounded;
    if h != [] {
      var n := |h| - 1;
      var front := h[..n];
      assert forall i :: 0 <= i < n ==> front[i] == h[i];
      CountReplay(front);
      ReplayGrounded(front);
      var m, e := Replay(front), h[n];
      if e.Born? {
        CountKeys(m, e);
        DistinctBorn(front, e);
        assert front + [e] == h;
      } else {
        assert Next(m, e).Keys == m.Keys;
        assert |Next(m, e)| == |m| by { assert |Next(m, e).Keys| == |m.Keys|; }
        DistinctFront(h);
      }
    }
  }

  /** A birth adds a key unless its pid is already there. */
  lemma CountKeys(m: map<int, Child>, e: Event)
    requires e.Born?
    ensures |Next(m, e)| == |m| + if e.birth.pid in m then 0 else 1
  {
    var p, m' := e.birth.pid, Next(m, e);
    assert m'.Keys == m.Keys + {p};
    hide Next;
    assert |m'| == |m'.Keys| && |m| == |m.Keys|;
    if p in m { assert m.Keys + {p} == m.Keys; }
  }

  lemma DistinctBorn(h: seq<Event>, e: Event)
    requires Grounded(h, Replay(h)) && e.Born?
    requires forall i :: 0 <= i < |h| && h[i].Born? ==> h[i].birth.pid in Replay(h)
    ensures PidsDistinct(h + [e]) <==> PidsDistinct(h) && e.birth.pid !in Replay(h)
  {
    hide Replay, HasEnd;
    var m, all, p := Replay(h), h + [e], e.birth.pid;
    assert all[|h|] == e && forall i :: 0 <= i < |h| ==> all[i] == h[i];
    if p in m {
      var i :| BirthOf(h, i, m[p]);
      assert all[i].birth.pid == all[|h|].birth.pid;
    }
  }

  lemma DistinctFront(h: seq<Event>)
    requires h != [] && !h[|h| - 1].Born?
    ensures PidsDistinct(h) <==> PidsDistinct(h[..|h| - 1])
  {
    assert forall i :: 0 <= i < |h| - 1 ==> h[..|h| - 1][i] == h[i];
  }

  // ---------------------------------------------------------------- what an overwritten entry loses

  /** The entry that a birth finds under its pid. */
  function Found(h: seq<Event>, j: int): Option<Child>
    requires 0 <= j < |h| && h[j].Born?
  {
    var m, p := Replay(h[..j]), h[j].birth.pid;
    if p in m then Some(m[p]) else None
  }

  /** No birth overwrites a child that was reaped with a non-zero status. */
  ghost predicate NoFailureLost(h: seq<Event>) {
    forall j :: 0 <= j < |h| && h[j].Born? && Found(h, j).Some? && Found(h, j).value.status.Some? ==>
      Found(h, j).value.status.value == 0
  }

  /** No birth overwrites a child that was not reaped yet. */
  ghost predicate NoLiveLost(h: seq<Event>) {
    forall j :: 0 <= j < |h| && h[j].Born? && Found(h, j).Some? ==> Found(h, j).value.status.Some?
  }

  ghost predicate EndsZero(h: seq<Event>) { forall j :: 0 <= j < |h| && h[j].Ended? ==> h[j].status == 0 }

  /** The wait at `j` is the birth's own: nobody else was born under the pid
      in between. */
  predicate OwnEnd(h: seq<Event>, i: int, j: int) {
    && 0 <= i < j < |h| && h[i].Born? && h[j].Ended? && h[j].birth == h[i].birth
    && forall k :: i < k < j && h[k].Born? ==> h[k].birth.pid != h[i].birth.pid
  }

  ghost predicate HasOwnEnd(h: seq<Event>, i: int) { exists j :: OwnEnd(h, i, j) }

  lemma FoundInFront(h: seq<Event>, n: int, j: int)
    requires 0 <= j < n <= |h| && h[j].Born?
    ensures h[..n][j] == h[j] && Found(h[..n], j) == Found(h, j)
  {
    hide Replay;
    assert h[..n][..j] == h[..j];
  }

  /** A failure that is never overwritten is still in the table. */
  lemma {:induction false} FailureStays(h: seq<Event>, j: int)
    requires Lawful(h) && NoFailureLost(h) && 0 <= j < |h| && h[j].Ended? && h[j].status != 0
    ensures h[j].birth.pid in Replay(h) && Replay(h)[h[j].birth.pid].status == Some(h[j].status)
  {
    var n := |h| - 1;
    var front := h[..n];
    if j < n {
      assert NoFailureLost(front) by {
        forall k | 0 <= k < n && front[k].Born? ensures Found(front, k) == Found(h, k) { FoundInFront(h, n, k); }
      }
      assert front[j] == h[j];
      FailureStays(front, j);
      if h[n].Born? {
        var p := h[n].birth.pid;
        assert Found(h, n) == if p in Replay(front) then Some(Replay(front)[p]) else None;
      } else if h[n].Ended? {
        assert Live(Replay(front), h[n]);
      }
    }
  }

  /** When every status left in the table is zero, every recorded exit was
      zero exactly if no birth overwrote a failure. */
  lemma FailuresLost(h: seq<Event>)
    requires Lawful(h) && forall p :: p in Replay(h) ==> Replay(h)[p].status == Some(0)
    ensures EndsZero(h) <==> NoFailureLost(h)
  {
    hide Replay, Lawful, Live;
    if NoFailureLost(h) {
      forall j | 0 <= j < |h| && h[j].Ended? ensures h[j].status == 0 {
        if h[j].status != 0 { FailureStays(h, j); }
      }
    }
    if EndsZero(h) {
      forall j | 0 <= j < |h| && h[j].Born? && Found(h, j).Some? && Found(h, j).value.status.Some?
        ensures Found(h, j).value.status.value == 0
      {
        LawfulFront(h, j);
        ReplayGrounded(h[..j]);
        var c := Found(h, j).value;
        var k :| EndOf(h[..j], k, c.birth, c.status.value);
        assert h[k] == h[..j][k];
      }
    }
  }

  lemma {:induction false} LawfulFront(h: seq<Event>, j: int)
    requires Lawful(h) && 0 <= j <= |h|
    ensures Lawful(h[..j])
  {
    if j < |h| {
      var n := |h| - 1;
      LawfulFront(h[..n], j);
      assert h[..n][..j] == h[..j];
    } else {
      assert h[..j] == h;
    }
  }

  /** `h[i]` is the last birth under the pid `p`. */
  predicate LastBirth(h: seq<Event>, i: int, p: int) {
    && 0 <= i < |h| && h[i].Born? && h[i].birth.pid == p
    && forall k :: i < k < |h| && h[k].Born? ==> h[k].birth.pid != p
  }

  ghost predicate EndedAs(h: seq<Event>, i: int, status: int) {
    exists k :: OwnEnd(h, i, k) && h[k].status == status
  }

  /** The entry of a pid is that of its last birth, and its status that of the
      birth's own wait, if there is one. */
  lemma {:induction false} Occupant(h: seq<Event>, p: int) returns (i: int)
    requires Lawful(h) && p in Replay(h)
    ensures LastBirth(h, i, p) && BirthOf(h, i, Replay(h)[p])
    ensures Replay(h)[p].status.Some? ==> EndedAs(h, i, Replay(h)[p].status.value)
    ensures Replay(h)[p].status == None ==> forall k :: i < k < |h| && h[k].Ended? ==> h[k].birth.pid != p
  {
    var n := |h| - 1;
    var front, e := h[..n], h[n];
    assert forall k :: 0 <= k < n ==> front[k] == h[k];
    if e.Born? && e.birth.pid == p {
      i := n;
    } else {
      i := Occupant(front, p);
      if e.Ended? && e.birth.pid == p {
        assert Live(Replay(front), e);
        assert OwnEnd(h, i, n);
      } else if Replay(h)[p].status.Some? {
        var s := Replay(h)[p].status.value;
        var k :| OwnEnd(front, i, k) && front[k].status == s;
        assert OwnEnd(h, i, k);
      }
    }
  }

  /** When every child left in the table was reaped, every birth has its own
      wait exactly if no birth overwrote a child that was not. */
  lemma WaitsLost(h: seq<Event>)
    requires Lawful(h) && forall p :: p in Replay(h) ==> Replay(h)[p].status.Some?
    ensures (forall i :: 0 <= i < |h| && h[i].Born? ==> HasOwnEnd(h, i)) <==> NoLiveLost(h)
  {
    hide Replay, Lawful;
    if NoLiveLost(h) {
      forall i | 0 <= i < |h| && h[i].Born? ensures HasOwnEnd(h, i) { EndsIfKept(h, i); }
    }
    if forall i :: 0 <= i < |h| && h[i].Born? ==> HasOwnEnd(h, i) {
      forall j | 0 <= j < |h| && h[j].Born? && Found(h, j).Some? ensures Found(h, j).value.status.Some? {
        if Found(h, j).value.status == None { LiveLoses(h, j); }
      }
    }
  }

  lemma EndsIfKept(h: seq<Event>, i: int)
    requires Lawful(h) && NoLiveLost(h) && 0 <= i < |h| && h[i].Born?
    requires forall p :: p in Replay(h) ==> Replay(h)[p].status.Some?
    ensures HasOwnEnd(h, i)
  {
    hide Replay, Lawful;
    var p := h[i].birth.pid;
    var k := NextBirth(h, i);
    var front := h[..k];
    LawfulFront(h, k);
    ReplayGrounded(front);
    assert front[i] == h[i];
    var o := Occupant(front, p);
    assert forall j :: 0 <= j < k ==> front[j] == h[j];
    assert o == i;
    if k < |h| { assert Found(h, k).value.status.Some?; } else { assert front == h; }
    var j :| OwnEnd(front, i, j);
    assert OwnEnd(h, i, j);
  }

  /** Where the next child under the same pid is born, or the end. */
  lemma {:induction false} NextBirth(h: seq<Event>, i: int) returns (k: int)
    requires 0 <= i < |h| && h[i].Born?
    ensures i < k <= |h| && LastBirth(h[..k], i, h[i].birth.pid)
    ensures k < |h| ==> h[k].Born? && h[k].birth.pid == h[i].birth.pid
  {
    k := i + 1;
    while k < |h| && !(h[k].Born? && h[k].birth.pid == h[i].birth.pid)
      invariant i < k <= |h| && LastBirth(h[..k], i, h[i].birth.pid)
    {
      assert forall j :: 0 <= j < k ==> h[..k + 1][j] == h[..k][j];
      k := k + 1;
    }
  }

  lemma LiveLoses(h: seq<Event>, j: int)
    requires Lawful(h) && 0 <= j < |h| && h[j].Born? && Found(h, j).Some? && Found(h, j).value.status == None
    ensures exists i :: 0 <= i < |h| && h[i].Born? && !HasOwnEnd(h, i)
  {
    hide Replay, Lawful;
    LawfulFront(h, j);
    var i := Occupant(h[..j], h[j].birth.pid);
    assert forall k :: 0 <= k < j ==> h[..j][k] == h[k];
    forall k ensures !OwnEnd(h, i, k) {}
  }
}
