/** One requester's copy: plan, submit, wait, with bounded explicit replanning
    before admission and no replay after it. */
module Admission {
  import opened Values

  /** A raised exception: is it the client's own error type, and its text. */
  datatype Failure = Failure(ddr: bool, text: string)

  datatype Phase = Planning | Submitting | Waiting | Cancelling | CleanupWaiting

  const FRESHNESS_REJECTION: string := "clock changed or observation exceeded freshness limit"

  const STALE_REJECTIONS: set<string> := {
    "broker or NUMA inventory changed during observation, retry",
    "stale snapshot or realm mismatch",
    "stale broker, epoch, generation, topology or resources",
    "snapshot expired during guard",
    "stale epoch or shutdown, explicitly replan",
    "broker or physical topology changed during probe, explicitly replan"
  }

  /** The pre-admission rejections that permit a replan. */
  predicate RetryRejection(f: Failure, phase: Phase, planned: bool) {
    && f.ddr
    && ((phase == Planning && !planned && f.text == FRESHNESS_REJECTION)
        || ((phase == Planning || phase == Submitting) && f.text in STALE_REJECTIONS))
  }

  /** Answers of the client. A plan or an admitted event may lack the fields
      that the next call needs; a wait may return without the event being
      complete, or drained. */
  datatype PlanReply = PlanFails(f: Failure) | Planned(usable: bool)
  datatype SubmitReply = SubmitFails(f: Failure) | Submitted(usable: bool)
  datatype WaitReply = WaitFails | Waited(complete: bool, drained: bool)

  /** What the outside answers to the t-th act of the run: any behaviour is
      some such script. `record(t)` is false if the callback itself raises. */
  datatype Script = Script(plan: nat -> PlanReply, submit: nat -> SubmitReply, wait: nat -> WaitReply,
                           cancel: nat -> bool, record: nat -> bool)

  datatype Row = FailedAttempt(attempt: nat, phase: Phase, retryable: bool, willRetry: bool)
               | EventCleanup(attempt: nat, drained: bool)
               | CopyComplete(attempt: nat, failures: nat)

  /** What the requester does, in order. `called` is false when preparing the
      call already failed. */
  datatype Act =
    | PlanCall(failure: Option<Failure>)
    | SubmitCall(called: bool, failure: Option<Failure>)
    | WaitCall(called: bool, ok: bool, terminal: bool)
    | CancelCall(called: bool, ok: bool)
    | Rec(row: Row, written: bool)

  datatype Outcome = Done(attempt: nat) | Raised

  const MISSING: Failure := Failure(false, "missing field")

  /** The t-th act got the answer that the script gives. */
  predicate Answers(x: Script, a: Act, t: nat) {
    match a
    case PlanCall(f) => f == (if x.plan(t).PlanFails? then Some(x.plan(t).f) else None)
    case SubmitCall(called, f) =>
      if !called then f == Some(MISSING)
      else f == (if x.submit(t).SubmitFails? then Some(x.submit(t).f) else None)
    case WaitCall(called, ok, terminal) =>
      ok == (called && x.wait(t).Waited? && x.wait(t).drained && (terminal || x.wait(t).complete))
    case CancelCall(called, ok) => ok == (called && x.cancel(t))
    case Rec(_, written) => written == x.record(t)
  }

  predicate Follows(x: Script, acts: seq<Act>, t: nat) {
    forall i :: 0 <= i < |acts| ==> Answers(x, acts[i], t + i)
  }

  lemma FollowsAppend(x: Script, a: seq<Act>, b: seq<Act>, t: nat)
    requires Follows(x, a, t) && Follows(x, b, t + |a|)
    ensures Follows(x, a + b, t)
  {
    hide Answers;
    forall i | 0 <= i < |a + b| ensures Answers(x, (a + b)[i], t + i) {
      if i < |a| {
        assert (a + b)[i] == a[i];
      } else {
        assert (a + b)[i] == b[i - |a|];
        assert t + i == t + |a| + (i - |a|);
      }
    }
  }

  lemma FollowsOne(x: Script, acts: seq<Act>, a: Act, t: nat)
    requires Follows(x, acts, t) && Answers(x, a, t + |acts|)
    ensures Follows(x, acts + [a], t)
  {
    hide Answers;
    FollowsAppend(x, acts, [a], t);
  }

  lemma FollowsTwo(x: Script, acts: seq<Act>, a: Act, b: Act, t: nat)
    requires Follows(x, acts, t) && Answers(x, a, t + |acts|) && Answers(x, b, t + |acts| + 1)
    ensures Follows(x, acts + [a, b], t)
  {
    hide Answers;
    assert forall i :: 0 <= i < 2 ==> [a, b][i] == (if i == 0 then a else b);
    FollowsAppend(x, acts, [a, b], t);
  }

  /** The submit returned: business work is admitted. */
  predicate Admits(a: Act) { a.SubmitCall? && a.failure == None }

  predicate IsFailure(a: Act) {
    match a
    case PlanCall(f) => f.Some?
    case SubmitCall(_, f) => f.Some?
    case WaitCall(_, ok, _) => !ok
    case CancelCall(_, ok) => !ok
    case Rec(_, _) => false
  }

  function PhaseOf(a: Act): Phase {
    match a
    case PlanCall(_) => Planning
    case SubmitCall(_, _) => Submitting
    case WaitCall(_, _, terminal) => if terminal then CleanupWaiting else Waiting
    case CancelCall(_, _) => Cancelling
    case Rec(_, _) => Planning
  }

  /** The failure of a call that permits a replan. */
  predicate Replannable(a: Act) {
    match a
    case PlanCall(Some(f)) => RetryRejection(f, Planning, false)
    case SubmitCall(_, Some(f)) => RetryRejection(f, Submitting, true)
    case _ => false
  }

  function Plans(trace: seq<Act>): nat {
    if trace == [] then 0 else Plans(trace[..|trace| - 1]) + if trace[|trace| - 1].PlanCall? then 1 else 0
  }

  /** Every failed call is followed at once by the record of that failure. */
  ghost predicate FailuresRecorded(trace: seq<Act>) {
    forall i :: 0 <= i < |trace| && IsFailure(trace[i]) ==>
      && i + 1 < |trace| && trace[i + 1].Rec? && trace[i + 1].row.FailedAttempt? && trace[i + 1].row.phase == PhaseOf(trace[i])
      && trace[i + 1].row.retryable == Replannable(trace[i])
  }

  /** Every plan but the first follows a failure that permits a replan, and the
      record of that failure was written. */
  ghost predicate ReplansJustified(trace: seq<Act>) {
    forall j :: 0 < j < |trace| && trace[j].PlanCall? ==>
      && j >= 2 && Replannable(trace[j - 2])
      && trace[j - 1].Rec? && trace[j - 1].written && trace[j - 1].row.FailedAttempt? && trace[j - 1].row.willRetry
  }

  /** Nothing is planned or submitted after a submit has returned. */
  ghost predicate NeverReplayed(trace: seq<Act>) {
    forall i, j :: 0 <= i < j < |trace| && Admits(trace[i]) ==> !trace[j].PlanCall? && !trace[j].SubmitCall?
  }

  ghost predicate Admitted(trace: seq<Act>) { exists i :: 0 <= i < |trace| && Admits(trace[i]) }

  /** The terminal wait for the admitted event was attempted. */
  ghost predicate TerminalWait(trace: seq<Act>) { exists i :: 0 <= i < |trace| && trace[i].WaitCall? && trace[i].terminal }

  /** The record callback raised on the failure of the given phase. */
  ghost predicate RecordRaised(trace: seq<Act>, phase: Phase) {
    exists i :: 0 <= i < |trace| && trace[i].Rec? && !trace[i].written && trace[i].row.FailedAttempt? && trace[i].row.phase == phase
  }

  /** A trace in which nothing is wrong so far. */
  ghost predicate Orderly(trace: seq<Act>) {
    FailuresRecorded(trace) && ReplansJustified(trace) && NeverReplayed(trace)
  }

  lemma PlansSnoc(trace: seq<Act>, a: Act)
    ensures Plans(trace + [a]) == Plans(trace) + if a.PlanCall? then 1 else 0
  {
    assert (trace + [a])[..|trace|] == trace;
  }

  /** A call and the record of what came of it. */
  lemma OrderlyPair(trace: seq<Act>, a: Act, row: Row, written: bool)
    requires Orderly(trace) && IsFailure(a)
    requires row.FailedAttempt? && row.phase == PhaseOf(a) && row.retryable == Replannable(a)
    requires a.PlanCall? || a.SubmitCall? ==> !Admitted(trace)
    requires a.PlanCall? && trace != [] ==> MayReplan(trace)
    ensures Orderly(trace + [a, Rec(row, written)])
  {
    hide RetryRejection, Replannable, FailuresRecorded;
    var n, all := |trace|, trace + [a, Rec(row, written)];
    assert forall i :: 0 <= i < n ==> all[i] == trace[i];
    assert all[n] == a && all[n + 1] == Rec(row, written);
    assert FailuresRecorded([a, Rec(row, written)]) by { PairRecorded(a, row, written); }
    RecordedAppend(trace, [a, Rec(row, written)]);
  }

  lemma PairRecorded(a: Act, row: Row, written: bool)
    requires row.FailedAttempt? && row.phase == PhaseOf(a) && row.retryable == Replannable(a)
    ensures FailuresRecorded([a, Rec(row, written)])
  {
    hide RetryRejection;
  }

  /** The last two acts are a replannable failure and its written record. */
  predicate MayReplan(trace: seq<Act>) {
    var n := |trace|;
    && n >= 2 && Replannable(trace[n - 2])
    && trace[n - 1].Rec? && trace[n - 1].written && trace[n - 1].row.FailedAttempt? && trace[n - 1].row.willRetry
  }

  lemma OrderlyOne(trace: seq<Act>, a: Act)
    requires Orderly(trace) && !IsFailure(a)
    requires a.PlanCall? || a.SubmitCall? ==> !Admitted(trace)
    requires a.PlanCall? && trace != [] ==> MayReplan(trace)
    ensures Orderly(trace + [a])
  {
    hide RetryRejection, Replannable, FailuresRecorded;
    var n, all := |trace|, trace + [a];
    assert forall i :: 0 <= i < n ==> all[i] == trace[i];
    assert all[n] == a;
    assert FailuresRecorded([a]) by { OneRecorded(a); }
    RecordedAppend(trace, [a]);
  }

  lemma OneRecorded(a: Act)
    requires !IsFailure(a)
    ensures FailuresRecorded([a])
  {
  }

  lemma AdmittedGrows(trace: seq<Act>, more: seq<Act>)
    ensures Admitted(trace + more) <==> Admitted(trace) || Admitted(more)
    ensures TerminalWait(trace + more) <==> TerminalWait(trace) || TerminalWait(more)
    ensures WaitSucceeded(trace + more) <==> WaitSucceeded(trace) || WaitSucceeded(more)
    ensures forall p :: RecordRaised(trace + more, p) <==> RecordRaised(trace, p) || RecordRaised(more, p)
  {
    var n, all := |trace|, trace + more;
    assert forall i :: 0 <= i < n ==> all[i] == trace[i];
    assert forall i :: 0 <= i < |more| ==> all[n + i] == more[i];
    assert forall i :: n <= i < |all| ==> all[i] == more[i - n];
  }

  /** The wait for the admitted event came back complete and drained. */
  ghost predicate WaitSucceeded(trace: seq<Act>) {
    exists i :: 0 <= i < |trace| && trace[i].WaitCall? && trace[i].ok && !trace[i].terminal
  }

  method CopyAttempts(x: Script) returns (outcome: Outcome, trace: seq<Act>)
    // At most four plans, never a replay, replans only when permitted, and
    // every failure recorded before anything else happens.
    ensures Plans(trace) <= 4 && Orderly(trace)
    // The trace is what the script answered, and before admission it ends only
    // with a failure that ends the run: one that permits no replan, one whose
    // record was not written, or the fourth.
    ensures Follows(x, trace, 0) && trace != [] && trace[0].PlanCall?
    ensures Prepared(x, trace)
    // Which failures are followed by a replan, spelled out, and what is recorded
    // of each; and how the cleanup of an admitted event ends.
    ensures Replans(trace)
    ensures Admitted(trace) && !WaitSucceeded(trace) ==> Closes(trace, Plans(trace))
    ensures !Admitted(trace) ==> Exhausted(trace)
    ensures outcome.Done? <==> WaitSucceeded(trace) && trace[|trace| - 1].Rec? && trace[|trace| - 1].written
    ensures outcome.Done? ==> outcome.attempt >= 1 && trace[|trace| - 1].row == CopyComplete(outcome.attempt, outcome.attempt - 1)
    // An admitted event that did not complete gets its terminal wait, unless
    // the record callback itself raised before it.
    ensures Admitted(trace) && !WaitSucceeded(trace) ==>
              (TerminalWait(trace) <==> !RecordRaised(trace, Waiting) && !RecordRaised(trace, Cancelling))
  {
    hide Orderly, Plans, RetryRejection, MISSING, Admitted, WaitSucceeded, TerminalWait, RecordRaised, Quiet, MayReplan, Follows, Prepared;
    hide Flowing, Pending, Replans, AllAgain, Listed, Closes, Replannable;
    trace := [];
    StartOfRun();
    NothingFrom(x, 0);
    FlowStart();
    var attempt: nat := 1;
    while true
      invariant 1 <= attempt <= 4
      invariant Follows(x, trace, 0) && Prepared(x, trace) && (trace != [] ==> trace[0].PlanCall?)
      invariant Orderly(trace) && Plans(trace) == attempt - 1 && Quiet(trace)
      invariant trace != [] ==> MayReplan(trace)
      invariant Flowing(trace) && (trace != [] ==> Pending(trace))
      decreases 4 - attempt
    {
      var planReply := x.plan(|trace|);
      var usable := false;
      var a := PlanCall(if planReply.PlanFails? then Some(planReply.f) else None);
      if planReply.Planned? {
        PlanSucceeds(trace);
        FollowsOne(x, trace, a, 0);
        PreparedPlan(x, trace, [a]);
        FlowPlan(trace);
        trace := trace + [a];
        var reply := if planReply.usable then x.submit(|trace|) else SubmitFails(MISSING);
        if reply.SubmitFails? {
          a := SubmitCall(planReply.usable, Some(reply.f));
        } else {
          a, usable := SubmitCall(true, None), reply.usable;
        }
      }
      if IsFailure(a) {
        var retryable := Replannable(a);
        var row := FailedAttempt(attempt, PhaseOf(a), retryable, retryable && attempt < 4);
        var written := x.record(|trace| + 1);
        FailureStep(trace, a, row, written);
        FollowsTwo(x, trace, a, Rec(row, written), 0);
        PreparedFailure(x, trace, a, Rec(row, written));
        PlansSnoc(trace, a);
        FlowFailure(trace, a, row, written);
        trace := trace + [a, Rec(row, written)];
        if !written || !retryable || attempt == 4 { return Raised, trace; }
        attempt := attempt + 1;
      } else {
        SubmitSucceeds(trace);
        FollowsOne(x, trace, a, 0);
        PreparedSubmit(x, trace, a);
        FlowAdmit(trace);
        ghost var quiet := trace;
        trace := trace + [a];
        AdmittedStays(trace);
        var reply := x.wait(|trace|);
        if usable && reply.Waited? && reply.complete && reply.drained {
          var row, written := CopyComplete(attempt, attempt - 1), x.record(|trace| + 1);
          CompleteStep(trace, row, written);
          FollowsTwo(x, trace, WaitCall(true, true, false), Rec(row, written), 0);
          FlowRest(trace, [WaitCall(true, true, false), Rec(row, written)]);
          PreparedAfter(x, quiet, a, [WaitCall(true, true, false), Rec(row, written)], usable);
          trace := trace + [WaitCall(true, true, false), Rec(row, written)];
          return if written then Done(attempt) else Raised, trace;
        }
        var tail := Cleanup(x, |trace|, attempt, usable);
        CleanupStep(trace, tail);
        FollowsAppend(x, trace, tail, 0);
        PreparedAfter(x, quiet, a, tail, usable);
        FlowRest(trace, tail);
        ClosesAfter(trace, tail, attempt);
        trace := trace + tail;
        return Raised, trace;
      }
    }
  }

  /** A submit is made with the plan just returned, and an admitted event is
      waited for and cancelled with what the submit returned. */
  ghost predicate Prepared(x: Script, trace: seq<Act>) {
    && (forall i :: 0 <= i < |trace| && trace[i].SubmitCall? ==>
          i > 0 && trace[i - 1].PlanCall? && x.plan(i - 1).Planned? && trace[i].called == x.plan(i - 1).usable)
    && (forall i, j :: 0 <= i < j < |trace| && Admits(trace[i]) && (trace[j].WaitCall? || trace[j].CancelCall?) ==>
          x.submit(i).Submitted? && trace[j].called == x.submit(i).usable)
  }

  predicate CalledAs(acts: seq<Act>, usable: bool) {
    forall i :: 0 <= i < |acts| && (acts[i].WaitCall? || acts[i].CancelCall?) ==> acts[i].called == usable
  }

  lemma PreparedPlan(x: Script, trace: seq<Act>, more: seq<Act>)
    requires Prepared(x, trace) && forall i :: 0 <= i < |more| ==> more[i].PlanCall? || more[i].Rec?
    ensures Prepared(x, trace + more)
  {
    hide Admits;
    var n, all := |trace|, trace + more;
    assert forall i :: 0 <= i < n ==> all[i] == trace[i];
    assert forall i :: n <= i < |all| ==> all[i] == more[i - n];
    NeitherAdmits(more);
  }

  lemma NeitherAdmits(more: seq<Act>)
    requires forall i :: 0 <= i < |more| ==> !more[i].SubmitCall?
    ensures forall i :: 0 <= i < |more| ==> !Admits(more[i])
  {
  }

  lemma PreparedSubmit(x: Script, trace: seq<Act>, a: Act)
    requires Prepared(x, trace) && a.SubmitCall?
    requires trace != [] && trace[|trace| - 1].PlanCall? && x.plan(|trace| - 1).Planned? && a.called == x.plan(|trace| - 1).usable
    ensures Prepared(x, trace + [a])
  {
    hide Admits;
    var n, all := |trace|, trace + [a];
    assert forall i :: 0 <= i < n ==> all[i] == trace[i];
    assert all[n] == a;
  }

  lemma PreparedFailure(x: Script, trace: seq<Act>, a: Act, row: Act)
    requires Prepared(x, trace) && row.Rec? && (a.PlanCall? || a.SubmitCall?)
    requires a.SubmitCall? ==>
               trace != [] && trace[|trace| - 1].PlanCall? && x.plan(|trace| - 1).Planned? && a.called == x.plan(|trace| - 1).usable
    ensures Prepared(x, trace + [a, row])
  {
    hide Prepared;
    if a.SubmitCall? { PreparedSubmit(x, trace, a); } else { PreparedPlan(x, trace, [a]); }
    PreparedPlan(x, trace + [a], [row]);
    assert trace + [a] + [row] == trace + [a, row];
  }

  lemma PreparedAfter(x: Script, quiet: seq<Act>, a: Act, tail: seq<Act>, usable: bool)
    requires Quiet(quiet) && Prepared(x, quiet + [a]) && a.SubmitCall? && x.submit(|quiet|) == Submitted(usable)
    requires Inert(tail) && CalledAs(tail, usable)
    ensures Prepared(x, quiet + [a] + tail)
  {
    hide Admits;
    var n, trace, all := |quiet| + 1, quiet + [a], quiet + [a] + tail;
    assert forall i :: 0 <= i < n ==> all[i] == trace[i];
    assert forall i :: 0 <= i < n - 1 ==> all[i] == quiet[i];
    assert forall i :: n <= i < |all| ==> all[i] == tail[i - n];
    NeitherAdmits(tail);
  }

  /** Why a run that admitted nothing may stop. */
  ghost predicate Exhausted(trace: seq<Act>) {
    && trace != []
    && var last := trace[|trace| - 1];
    last.Rec? && last.row.FailedAttempt? && (!last.written || !last.row.retryable || Plans(trace) == 4)
  }

  lemma AdmittedStays(trace: seq<Act>)
    requires Admitted(trace)
    ensures forall more :: Admitted(trace + more)
  {
    hide Admits;
    forall more: seq<Act> ensures Admitted(trace + more) {
      var i :| 0 <= i < |trace| && Admits(trace[i]);
      assert (trace + more)[i] == trace[i];
    }
  }

  /** The admitted event did not complete: record that, cancel, then try its
      terminal wait whatever the cancel said. */
  method Cleanup(x: Script, t: nat, attempt: nat, usable: bool) returns (tail: seq<Act>)
    requires !(usable && x.wait(t).Waited? && x.wait(t).complete && x.wait(t).drained)
    ensures Aftermath(tail) && Follows(x, tail, t) && CalledAs(tail, usable) && Closes(tail, attempt)
  {
    hide RetryRejection, Replannable, FailuresRecorded, WaitSucceeded, TerminalWait, RecordRaised, Inert, Follows;
    var w := x.record(t + 1);
    NothingFrom(x, t);
    tail := [WaitCall(usable, false, false), Rec(FailedAttempt(attempt, Waiting, false, false), w)];
    FollowsTwo(x, [], tail[0], tail[1], t);
    assert [] + [tail[0], tail[1]] == tail;
    Literal(tail);
    if !w { return; }
    var cancelled := usable && x.cancel(t + |tail|);
    var call := CancelCall(usable, cancelled);
    w := cancelled || x.record(t + |tail| + 1);
    tail := Afterwards(x, t, tail, call, FailedAttempt(attempt, Cancelling, false, false));
    if !w { return; }
    var reply := x.wait(t + |tail|);
    var drained := usable && reply.Waited? && reply.drained;
    call := WaitCall(usable, drained, true);
    w := drained || x.record(t + |tail| + 1);
    tail := Afterwards(x, t, tail, call, FailedAttempt(attempt, CleanupWaiting, false, false));
    if !w { return; }
    var last := [Rec(EventCleanup(attempt, drained), x.record(t + |tail|))];
    FollowsOne(x, tail, last[0], t);
    Literal(last);
    Joined(tail, last);
    CalledJoined(tail, last, usable);
    tail := tail + last;
  }

  lemma CalledJoined(a: seq<Act>, b: seq<Act>, usable: bool)
    requires CalledAs(a, usable) && CalledAs(b, usable)
    ensures CalledAs(a + b, usable)
  {
    assert forall i :: 0 <= i < |a| ==> (a + b)[i] == a[i];
    assert forall i :: |a| <= i < |a + b| ==> (a + b)[i] == b[i - |a|];
  }

  /** A cleanup call, with its record if it failed. */
  method Afterwards(x: Script, t: nat, before: seq<Act>, call: Act, row: Row) returns (tail: seq<Act>)
    requires (call.CancelCall? || (call.WaitCall? && call.terminal)) && row.FailedAttempt? && row.phase == PhaseOf(call) && !row.retryable
    requires FailuresRecorded(before) && Inert(before) && Follows(x, before, t) && Answers(x, call, t + |before|)
    ensures forall usable :: CalledAs(before, usable) && call.called == usable ==> CalledAs(tail, usable)
    ensures tail == before + if IsFailure(call) then [call, Rec(row, x.record(t + |before| + 1))] else [call]
    ensures FailuresRecorded(tail) && Inert(tail) && Follows(x, tail, t)
    ensures WaitSucceeded(tail) <==> WaitSucceeded(before)
    ensures TerminalWait(tail) <==> TerminalWait(before) || call.WaitCall?
    ensures forall p :: RecordRaised(tail, p) <==>
              RecordRaised(before, p) || (IsFailure(call) && p == row.phase && !x.record(t + |before| + 1))
  {
    hide RetryRejection, Replannable, FailuresRecorded, WaitSucceeded, TerminalWait, RecordRaised, Inert, Follows;
    var more := [call];
    if IsFailure(call) {
      more := [call, Rec(row, x.record(t + |before| + 1))];
      FollowsTwo(x, before, more[0], more[1], t);
      assert [more[0], more[1]] == more;
    } else {
      FollowsOne(x, before, call, t);
    }
    NoReplan(call);
    Literal(more);
    Joined(before, more);
    if CalledAs(before, call.called) { CalledJoined(before, more, call.called); }
    tail := before + more;
  }

  lemma NoReplan(call: Act)
    requires call.CancelCall? || call.WaitCall?
    ensures !Replannable(call)
  {
  }

  lemma NothingFrom(x: Script, t: nat)
    ensures Follows(x, [], t) && Prepared(x, [])
  {
  }

  /** What the cleanup adds to the trace. */
  ghost predicate Aftermath(tail: seq<Act>) {
    && tail != [] && FailuresRecorded(tail) && !WaitSucceeded(tail) && Inert(tail)
    && (TerminalWait(tail) <==> !RecordRaised(tail, Waiting) && !RecordRaised(tail, Cancelling))
  }

  /** Nothing is planned or submitted. */
  ghost predicate Inert(s: seq<Act>) {
    forall i :: 0 <= i < |s| ==> !s[i].PlanCall? && !s[i].SubmitCall?
  }

  predicate Raises(a: Act, p: Phase) { a.Rec? && !a.written && a.row.FailedAttempt? && a.row.phase == p }

  /** The facts about a single act, or a failure and its record. */
  lemma Literal(s: seq<Act>)
    requires |s| == 1 || |s| == 2
    requires forall i :: 0 <= i < |s| ==> !s[i].PlanCall? && !s[i].SubmitCall?
    requires IsFailure(s[0]) ==> |s| == 2
    requires |s| == 2 ==> s[1].Rec? && s[1].row.FailedAttempt? && s[1].row.phase == PhaseOf(s[0]) && !s[1].row.retryable
    ensures FailuresRecorded(s) && Inert(s)
    ensures WaitSucceeded(s) <==> s[0].WaitCall? && s[0].ok && !s[0].terminal
    ensures TerminalWait(s) <==> s[0].WaitCall? && s[0].terminal
    ensures forall p :: RecordRaised(s, p) <==> Raises(s[|s| - 1], p) || Raises(s[0], p)
  {
    hide RetryRejection;
  }

  lemma Joined(a: seq<Act>, b: seq<Act>)
    requires FailuresRecorded(a) && FailuresRecorded(b) && Inert(a) && Inert(b)
    ensures FailuresRecorded(a + b) && Inert(a + b)
    ensures WaitSucceeded(a + b) <==> WaitSucceeded(a) || WaitSucceeded(b)
    ensures TerminalWait(a + b) <==> TerminalWait(a) || TerminalWait(b)
    ensures forall p :: RecordRaised(a + b, p) <==> RecordRaised(a, p) || RecordRaised(b, p)
  {
    hide RetryRejection, Replannable;
    AdmittedGrows(a, b);
    RecordedAppend(a, b);
  }

  lemma RecordedAppend(a: seq<Act>, b: seq<Act>)
    requires FailuresRecorded(a) && FailuresRecorded(b)
    ensures FailuresRecorded(a + b)
  {
    hide RetryRejection, Replannable;
    var n, all := |a|, a + b;
    forall i | 0 <= i < |all| && IsFailure(all[i])
      ensures i + 1 < |all| && all[i + 1].Rec? && all[i + 1].row.FailedAttempt? && all[i + 1].row.phase == PhaseOf(all[i])
      ensures all[i + 1].row.retryable == Replannable(all[i])
    {
      if i < n {
        assert all[i] == a[i] && all[i + 1] == a[i + 1];
      } else {
        assert all[i] == b[i - n] && all[i + 1] == b[i - n + 1];
      }
    }
  }

  /** Before admission: nothing admitted, nothing waited for, and no failed
      record of a later phase. */
  ghost predicate Quiet(trace: seq<Act>) {
    forall i :: 0 <= i < |trace| ==>
      && !Admits(trace[i]) && !trace[i].WaitCall?
      && (trace[i].Rec? ==> trace[i].row.FailedAttempt? && (trace[i].row.phase == Planning || trace[i].row.phase == Submitting))
  }

  lemma StartOfRun()
    ensures Orderly([]) && Plans([]) == 0 && Quiet([])
  {
  }

  lemma PlanSucceeds(trace: seq<Act>)
    requires Orderly(trace) && Quiet(trace) && (trace != [] ==> MayReplan(trace))
    ensures var r := trace + [PlanCall(None)]; Orderly(r) && Quiet(r) && Plans(r) == Plans(trace) + 1
  {
    hide RetryRejection, Orderly, Plans;
    OrderlyOne(trace, PlanCall(None));
    PlansSnoc(trace, PlanCall(None));
  }

  lemma SubmitSucceeds(trace: seq<Act>)
    requires Orderly(trace) && Quiet(trace)
    ensures var r := trace + [SubmitCall(true, None)];
            && Orderly(r) && Plans(r) == Plans(trace) && Admitted(r)
            && !WaitSucceeded(r) && !TerminalWait(r) && !RecordRaised(r, Waiting) && !RecordRaised(r, Cancelling)
  {
    hide RetryRejection, Orderly, Plans;
    var a := SubmitCall(true, None);
    OrderlyOne(trace, a);
    PlansSnoc(trace, a);
    assert (trace + [a])[|trace|] == a;
  }

  lemma FailureStep(trace: seq<Act>, a: Act, row: Row, written: bool)
    requires Orderly(trace) && Quiet(trace) && IsFailure(a) && (a.PlanCall? || a.SubmitCall?)
    requires a.PlanCall? && trace != [] ==> MayReplan(trace)
    requires row.FailedAttempt? && row.phase == PhaseOf(a) && row.retryable == Replannable(a) && (row.willRetry ==> row.retryable)
    ensures var r := trace + [a, Rec(row, written)];
            && Orderly(r) && Quiet(r) && Plans(r) == Plans(trace) + (if a.PlanCall? then 1 else 0)
            && (written && row.willRetry ==> MayReplan(r)) && !Admitted(r) && !WaitSucceeded(r)
  {
    hide RetryRejection, Orderly, Plans;
    OrderlyPair(trace, a, row, written);
    PlansSnoc(trace, a);
    PlansSnoc(trace + [a], Rec(row, written));
    assert trace + [a, Rec(row, written)] == trace + [a] + [Rec(row, written)];
  }

  /** Acts that plan and submit nothing keep the trace orderly. */
  lemma OrderlyAppend(trace: seq<Act>, tail: seq<Act>)
    requires Orderly(trace) && FailuresRecorded(tail) && Inert(tail)
    ensures Orderly(trace + tail) && Plans(trace + tail) == Plans(trace)
  {
    hide RetryRejection, Replannable, Plans, FailuresRecorded;
    var n, all := |trace|, trace + tail;
    assert forall i :: 0 <= i < n ==> all[i] == trace[i];
    assert forall i :: n <= i < |all| ==> all[i] == tail[i - n];
    SamePlans(trace, tail);
    RecordedAppend(trace, tail);
  }

  lemma {:induction false} SamePlans(trace: seq<Act>, tail: seq<Act>)
    requires forall i :: 0 <= i < |tail| ==> !tail[i].PlanCall?
    ensures Plans(trace + tail) == Plans(trace)
  {
    if tail == [] {
      assert trace + tail == trace;
    } else {
      var n := |tail| - 1;
      SamePlans(trace, tail[..n]);
      PlansSnoc(trace + tail[..n], tail[n]);
      assert trace + tail == trace + tail[..n] + [tail[n]];
    }
  }

  lemma CompleteStep(trace: seq<Act>, row: Row, written: bool)
    requires Orderly(trace) && row.CopyComplete?
    ensures var r := trace + [WaitCall(true, true, false), Rec(row, written)];
            Orderly(r) && Plans(r) == Plans(trace) && WaitSucceeded(r)
  {
    hide RetryRejection, Orderly, Plans;
    var tail := [WaitCall(true, true, false), Rec(row, written)];
    OrderlyAppend(trace, tail);
    assert (trace + tail)[|trace|] == tail[0];
  }

  lemma CleanupStep(trace: seq<Act>, tail: seq<Act>)
    requires Orderly(trace) && Admitted(trace) && Aftermath(tail)
    requires !WaitSucceeded(trace) && !TerminalWait(trace) && !RecordRaised(trace, Waiting) && !RecordRaised(trace, Cancelling)
    ensures var r := trace + tail;
            && Orderly(r) && Plans(r) == Plans(trace) && !WaitSucceeded(r)
            && (TerminalWait(r) <==> !RecordRaised(r, Waiting) && !RecordRaised(r, Cancelling))
  {
    hide RetryRejection, Orderly, Plans, FailuresRecorded, Inert, WaitSucceeded, TerminalWait, RecordRaised, Admitted;
    OrderlyAppend(trace, tail);
    AdmittedGrows(trace, tail);
  }

  // ---------------------------------------------------------------- which failures are followed by a replan

  predicate StaleText(text: string) {
    || text == "broker or NUMA inventory changed during observation, retry"
    || text == "stale snapshot or realm mismatch"
    || text == "stale broker, epoch, generation, topology or resources"
    || text == "snapshot expired during guard"
    || text == "stale epoch or shutdown, explicitly replan"
    || text == "broker or physical topology changed during probe, explicitly replan"
  }

  /** A plan or submit that the broker refused for one of the listed reasons. */
  predicate Listed(a: Act) {
    match a
    case PlanCall(Some(f)) =>
      f.ddr && (StaleText(f.text) || f.text == "clock changed or observation exceeded freshness limit")
    case SubmitCall(_, Some(f)) => f.ddr && StaleText(f.text)
    case _ => false
  }

  lemma ListedIsReplannable(a: Act)
    ensures Listed(a) <==> Replannable(a)
  {
  }

  /** A plan or submit that failed: nothing is admitted yet. */
  predicate EarlyFailure(a: Act) { (a.PlanCall? || a.SubmitCall?) && a.failure.Some? }

  /** The failure at `i` is listed, its record was written, and fewer than four
      plans were made. */
  predicate Again(trace: seq<Act>, i: int)
    requires 0 <= i && i + 1 < |trace|
  {
    Listed(trace[i]) && trace[i + 1].Rec? && trace[i + 1].written && Plans(trace[..i + 1]) < 4
  }

  /** The record of the failure at `i` says which attempt failed, in which phase,
      and whether it is listed and will be retried. */
  predicate Recounts(trace: seq<Act>, i: int)
    requires 0 <= i && i + 1 < |trace|
  {
    && trace[i + 1].Rec?
    && trace[i + 1].row == FailedAttempt(Plans(trace[..i + 1]), if trace[i].PlanCall? then Planning else Submitting,
                                         Listed(trace[i]), Listed(trace[i]) && Plans(trace[..i + 1]) < 4)
  }

  /** A failed plan or submit is recorded at once, and then planned again exactly
      if it is listed, its record was written and fewer than four plans were
      made; otherwise the run ends there. Nothing else is ever planned again. */
  ghost predicate Replans(trace: seq<Act>) {
    && (forall i :: 0 <= i < |trace| && EarlyFailure(trace[i]) ==>
          && i + 1 < |trace| && Recounts(trace, i)
          && (if Again(trace, i) then i + 2 < |trace| && trace[i + 2].PlanCall? else |trace| == i + 2))
    && PlansFollow(trace)
  }

  ghost predicate PlansFollow(trace: seq<Act>) {
    forall j :: 0 < j < |trace| && trace[j].PlanCall? ==> j >= 2 && EarlyFailure(trace[j - 2]) && Again(trace, j - 2)
  }

  /** The same of a run that still goes on. */
  ghost predicate Flowing(trace: seq<Act>) {
    && (forall i :: 0 <= i < |trace| && EarlyFailure(trace[i]) ==>
          && i + 1 < |trace| && Recounts(trace, i) && Again(trace, i)
          && (i + 2 == |trace| || trace[i + 2].PlanCall?))
    && PlansFollow(trace)
  }

  /** The run has just recorded a failure after which it plans again. */
  predicate Pending(trace: seq<Act>) { |trace| >= 2 && EarlyFailure(trace[|trace| - 2]) && Again(trace, |trace| - 2) }

  lemma FlowStart()
    ensures Flowing([])
  {
  }

  /** What was said of a place stays true as the trace grows. */
  lemma FlowKeeps(trace: seq<Act>, more: seq<Act>)
    ensures forall i :: 0 <= i && i + 1 < |trace| ==>
              && (Again(trace + more, i) <==> Again(trace, i)) && (Recounts(trace + more, i) <==> Recounts(trace, i))
  {
    hide Listed, Plans;
    var all := trace + more;
    forall i | 0 <= i && i + 1 < |trace|
      ensures (Again(all, i) <==> Again(trace, i)) && (Recounts(all, i) <==> Recounts(trace, i))
    {
      assert all[..i + 1] == trace[..i + 1] && all[i] == trace[i] && all[i + 1] == trace[i + 1];
    }
  }

  lemma FlowPlan(trace: seq<Act>)
    requires Flowing(trace) && (trace != [] ==> Pending(trace))
    ensures Flowing(trace + [PlanCall(None)])
  {
    hide Again, Recounts;
    var n, all := |trace|, trace + [PlanCall(None)];
    FlowKeeps(trace, [PlanCall(None)]);
    assert all[n] == PlanCall(None) && forall i :: 0 <= i < n ==> all[i] == trace[i];
  }

  /** The trace ends with a plan that was returned. */
  predicate PlanReturned(trace: seq<Act>) { trace != [] && trace[|trace| - 1] == PlanCall(None) }

  lemma FlowFailure(trace: seq<Act>, a: Act, row: Row, written: bool)
    requires Flowing(trace) && EarlyFailure(a)
    requires a.PlanCall? ==> (trace != [] ==> Pending(trace))
    requires a.SubmitCall? ==> PlanReturned(trace)
    requires row == FailedAttempt(Plans(trace + [a]), PhaseOf(a), Replannable(a), Replannable(a) && Plans(trace + [a]) < 4)
    ensures var r := trace + [a, Rec(row, written)];
            if Replannable(a) && written && Plans(trace + [a]) < 4 then Flowing(r) && Pending(r) else Replans(r)
  {
    hide Listed, Plans, Replannable, Flowing, Replans;
    var n, r := |trace|, trace + [a, Rec(row, written)];
    ListedIsReplannable(a);
    assert r[n] == a && r[n + 1] == Rec(row, written) && r[..n + 1] == trace + [a];
    assert Recounts(r, n) && (Again(r, n) <==> Replannable(a) && written && Plans(trace + [a]) < 4);
    hide Again, Recounts;
    FlowOn(trace, a, Rec(row, written));
  }

  lemma FlowOn(trace: seq<Act>, a: Act, rec: Act)
    requires Flowing(trace) && EarlyFailure(a) && rec.Rec?
    requires a.PlanCall? ==> (trace != [] ==> Pending(trace))
    requires a.SubmitCall? ==> PlanReturned(trace)
    requires Recounts(trace + [a, rec], |trace|)
    ensures var r := trace + [a, rec]; if Again(r, |trace|) then Flowing(r) && Pending(r) else Replans(r)
  {
    hide Again, Recounts;
    var n, r := |trace|, trace + [a, rec];
    FlowKeeps(trace, [a, rec]);
    assert r[n] == a && r[n + 1] == rec && forall i :: 0 <= i < n ==> r[i] == trace[i];
    forall i | 0 <= i < n && EarlyFailure(r[i]) ensures Recounts(r, i) && Again(r, i) && i + 2 < |r| && r[i + 2].PlanCall? {
      if i + 2 == n && a.SubmitCall? { NotARecord(trace, i); }
    }
    assert PlansFollow(r);
  }

  lemma FlowAdmit(trace: seq<Act>)
    requires Flowing(trace) && PlanReturned(trace)
    ensures var r := trace + [SubmitCall(true, None)]; Replans(r) && AllAgain(r)
  {
    hide Again, Recounts;
    var n, r := |trace|, trace + [SubmitCall(true, None)];
    FlowKeeps(trace, [SubmitCall(true, None)]);
    assert r[n] == SubmitCall(true, None) && forall i :: 0 <= i < n ==> r[i] == trace[i];
    forall i | 0 <= i < n && EarlyFailure(trace[i]) ensures i + 2 < n {
      if i + 2 == n { NotARecord(trace, i); }
    }
  }

  lemma NotARecord(trace: seq<Act>, i: int)
    requires 0 <= i && i + 2 == |trace| && Recounts(trace, i)
    ensures !PlanReturned(trace)
  {
  }

  /** Every failure so far was planned again. */
  ghost predicate AllAgain(trace: seq<Act>) {
    forall i :: 0 <= i < |trace| && EarlyFailure(trace[i]) ==> i + 2 < |trace| && Again(trace, i)
  }

  lemma FlowRest(trace: seq<Act>, tail: seq<Act>)
    requires Replans(trace) && AllAgain(trace) && Inert(tail)
    ensures Replans(trace + tail)
  {
    hide Again, Recounts;
    var n, r := |trace|, trace + tail;
    FlowKeeps(trace, tail);
    assert forall i :: 0 <= i < n ==> r[i] == trace[i];
    assert forall i :: n <= i < |r| ==> r[i] == tail[i - n];
  }

  /** A cleanup ends with a record that was not written, or with the account of
      whether the event was drained: that is, whether the last call returned. */
  predicate Closes(trace: seq<Act>, attempt: nat) {
    && |trace| >= 2 && trace[|trace| - 1].Rec?
    && match trace[|trace| - 1].row
       case FailedAttempt(_, _, _, _) => !trace[|trace| - 1].written
       case EventCleanup(n, drained) => n == attempt && (drained <==> trace[|trace| - 2].WaitCall?)
       case CopyComplete(_, _) => false
  }

  lemma ClosesAfter(trace: seq<Act>, tail: seq<Act>, attempt: nat)
    requires Closes(tail, attempt)
    ensures Closes(trace + tail, attempt)
  {
    var all := trace + tail;
    assert all[|all| - 1] == tail[|tail| - 1] && all[|all| - 2] == tail[|tail| - 2];
  }

  /** The failures after admission, spelled out: each is recorded at once, in its
      own phase, and never as one that permits a replan. */
  lemma LateFailures(trace: seq<Act>, i: int)
    requires FailuresRecorded(trace) && 0 <= i < |trace|
    requires (trace[i].WaitCall? || trace[i].CancelCall?) && !trace[i].ok
    ensures i + 1 < |trace| && trace[i + 1].Rec? && trace[i + 1].row.FailedAttempt? && !trace[i + 1].row.retryable
    ensures trace[i + 1].row.phase == if trace[i].CancelCall? then Cancelling else if trace[i].terminal then CleanupWaiting else Waiting
  {
    hide RetryRejection;
  }
}
