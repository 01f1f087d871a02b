/** Whole runs of the challenge manager: refinement of the event log, windows and suspensions. */
module ChallengeRuns {
  import opened Basics
  import opened ChallengeTables
  import opened ChallengeLog

  datatype Op =
    | IssueOp(now: real, owner: Owner, action: string, payload: Payload, id: Id, answer: string)
    | VerifyOp(now: real, owner: Owner, action: string, payload: Payload, id: Id, submitted: Option<string>)

  datatype Outcome = OfIssue(issue: IssueOutcome) | OfVerify(verify: VerifyOutcome)

  ghost function Step(c: Config, t: Tables, op: Op): (Tables, Outcome) {
    match op
    case IssueOp(now, k, action, payload, id, answer) =>
      var (t', o) := Issue(c, t, now, k, action, payload, id, answer); (t', OfIssue(o))
    case VerifyOp(now, k, action, payload, id, answer) =>
      var (t', o) := Verify(c, t, now, k, action, payload, id, answer); (t', OfVerify(o))
  }

  ghost function RefStep(c: Config, log: Log, op: Op): (Log, Outcome) {
    match op
    case IssueOp(now, k, action, payload, id, answer) =>
      var (log', o) := RefIssue(c, log, now, k, action, payload, id, answer); (log', OfIssue(o))
    case VerifyOp(now, k, action, payload, id, answer) =>
      var (log', o) := RefVerify(c, log, now, k, action, payload, id, answer); (log', OfVerify(o))
  }

  /** The manager's tables after `ops`, oldest first, and the outcome of each of them. */
  ghost function Run(c: Config, ops: seq<Op>): (r: (Tables, seq<Outcome>))
    ensures |r.1| == |ops|
  {
    if ops == [] then (Tables(map[], map[]), [])
    else
      var (t, outs) := Run(c, ops[..|ops| - 1]);
      var (t', o) := Step(c, t, ops[|ops| - 1]);
      (t', outs + [o])
  }

  ghost function RefRun(c: Config, ops: seq<Op>): (r: (Log, seq<Outcome>))
    ensures |r.1| == |ops|
  {
    if ops == [] then (Empty, [])
    else
      var (log, outs) := RefRun(c, ops[..|ops| - 1]);
      var (log', o) := RefStep(c, log, ops[|ops| - 1]);
      (log', outs + [o])
  }

  /** The clock never runs backwards. */
  ghost predicate Timely(ops: seq<Op>) {
    forall i, j :: 0 <= i < j < |ops| ==> ops[i].now <= ops[j].now
  }

  // ---- Refinement ----

  lemma IssueStep(c: Config, t: Tables, log: Log, from: real, op: Op)
    requires op.IssueOp? && Simulates(c, t, log, from) && from <= op.now
    ensures Step(c, t, op).1 == RefStep(c, log, op).1
    ensures Simulates(c, Step(c, t, op).0, RefStep(c, log, op).0, op.now)
  {
    var now, k, t1 := op.now, op.owner, Cleanup(c, t, op.now);
    CleanupSimulates(c, t, log, from, now);
    CleanupMirrors(c, t, log, from, now);
    SameSlots(c, t1, log, k, now);
    if !SlotFull(c, t1, k) {
      var o := OwnerOf(t1, k);
      var t2 := WithOwner(t1, k, o);
      SlotSimulates(c, t1, log, now, k);
      AdmitAgrees(c, t1, log, now, k);
      if AdmitIssue(c, t2, now, k).Issued? {
        IssueSimulates(c, t2, log, now, k, op.action, op.payload, op.id, op.answer);
        assert t2.owners[k] == o;
      }
    }
  }

  lemma FailStep(c: Config, t: Tables, log: Log, now: real, k: Owner, outcome: VerifyOutcome)
    requires Simulates(c, t, log, now) && k in t.owners && t.owners[k] == OwnerAt(c, log, k, now)
    ensures Fail(c, t, now, k, outcome).1 == RefFail(c, log, now, k, outcome).1
    ensures Simulates(c, Fail(c, t, now, k, outcome).0, RefFail(c, log, now, k, outcome).0, now)
  {
    FailureSimulates(c, t, log, now, k);
  }

  lemma FinishFailStep(c: Config, t: Tables, log: Log, now: real, k: Owner, id: Id, outcome: VerifyOutcome)
    requires Simulates(c, t, log, now) && k in t.owners && t.owners[k] == OwnerAt(c, log, k, now)
    requires id in t.records && t.records[id].status.Pending? && t.records[id].expiresAt > now
    ensures var t' := WithRecord(t, id, t.records[id].Finish(Failed, now));
            var log' := Then(log, FinishEvent(now, id, Failed));
            && Fail(c, t', now, k, outcome).1 == RefFail(c, log', now, k, outcome).1
            && Simulates(c, Fail(c, t', now, k, outcome).0, RefFail(c, log', now, k, outcome).0, now)
  {
    FinishSimulates(c, t, log, now, id, Failed);
    OwnerAfterFinish(c, log, FinishEvent(now, id, Failed), k, now);
    FailStep(c, WithRecord(t, id, t.records[id].Finish(Failed, now)),
             Then(log, FinishEvent(now, id, Failed)), now, k, outcome);
  }

  lemma UnknownStep(c: Config, t: Tables, log: Log, now: real, k: Owner)
    requires Simulates(c, t, log, now) && OwnerOf(t, k) == OwnerAt(c, log, k, now)
    requires SlotFull(c, t, k) <==> NoSlot(c, log, k, now)
    ensures Simulates(c, NoteUnknown(c, t, now, k),
              if NoSlot(c, log, k, now) || SuspendedAt(c, log, k, now) then log
              else Then(log, FailureEvent(now, k)), now)
  {
    SlotSimulates(c, t, log, now, k);
    if !SlotFull(c, t, k) {
      FailStep(c, WithOwner(t, k, OwnerOf(t, k)), log, now, k, UnknownId);
    }
  }

  /** A foreign record can only cost the caller a failure. */
  lemma JudgeForeign(c: Config, t: Tables, log: Log, op: Op)
    requires op.VerifyOp? && Simulates(c, t, log, op.now) && op.id in t.records
    requires Some(t.records[op.id]) == RecordAt(c, log, op.id, op.now)
    requires OwnerOf(t, op.owner) == OwnerAt(c, log, op.owner, op.now)
    requires SlotFull(c, t, op.owner) <==> NoSlot(c, log, op.owner, op.now)
    requires t.records[op.id].owner != op.owner
    ensures var a := Judge(c, t, op.now, op.owner, op.action, op.payload, op.id, op.submitted);
            var b := RefVerify(c, log, op.now, op.owner, op.action, op.payload, op.id, op.submitted);
            a.1 == b.1 && Simulates(c, a.0, b.0, op.now)
  {
    var now, k := op.now, op.owner;
    SlotSimulates(c, t, log, now, k);
    FailStep(c, WithOwner(t, k, OwnerOf(t, k)), log, now, k, WrongAnswer);
  }

  /** A finished record of the caller's own: nothing happens, or a failure is counted, on both sides. */
  lemma FinishedOutcome(c: Config, t: Tables, log: Log, op: Op)
    requires op.VerifyOp? && op.id in t.records
    requires Some(t.records[op.id]) == RecordAt(c, log, op.id, op.now)
    requires OwnerOf(t, op.owner) == OwnerAt(c, log, op.owner, op.now)
    requires SlotFull(c, t, op.owner) <==> NoSlot(c, log, op.owner, op.now)
    requires t.records[op.id].owner == op.owner && !t.records[op.id].status.Pending?
    ensures var (now, k) := (op.now, op.owner);
            var t2 := WithOwner(t, k, OwnerOf(t, k));
            var a := Judge(c, t, now, k, op.action, op.payload, op.id, op.submitted);
            var b := RefVerify(c, log, now, k, op.action, op.payload, op.id, op.submitted);
            || (a == (t, b.1) && b.0 == log)
            || (!SlotFull(c, t, k) && a == (t2, b.1) && b.0 == log)
            || (!SlotFull(c, t, k) && a == Fail(c, t2, now, k, ContextMismatch)
                && b == RefFail(c, log, now, k, ContextMismatch))
            || (!SlotFull(c, t, k) && a == Fail(c, t2, now, k, WrongAnswer)
                && b == RefFail(c, log, now, k, WrongAnswer))
  {
  }

  lemma JudgeFinished(c: Config, t: Tables, log: Log, op: Op)
    requires op.VerifyOp? && Simulates(c, t, log, op.now) && op.id in t.records
    requires Some(t.records[op.id]) == RecordAt(c, log, op.id, op.now)
    requires OwnerOf(t, op.owner) == OwnerAt(c, log, op.owner, op.now)
    requires SlotFull(c, t, op.owner) <==> NoSlot(c, log, op.owner, op.now)
    requires t.records[op.id].owner == op.owner && !t.records[op.id].status.Pending?
    ensures var a := Judge(c, t, op.now, op.owner, op.action, op.payload, op.id, op.submitted);
            var b := RefVerify(c, log, op.now, op.owner, op.action, op.payload, op.id, op.submitted);
            a.1 == b.1 && Simulates(c, a.0, b.0, op.now)
  {
    var now, k := op.now, op.owner;
    var t2 := WithOwner(t, k, OwnerOf(t, k));
    FinishedOutcome(c, t, log, op);
    SlotSimulates(c, t, log, now, k);
    FailStep(c, t2, log, now, k, ContextMismatch);
    FailStep(c, t2, log, now, k, WrongAnswer);
  }

  lemma JudgePending(c: Config, t: Tables, log: Log, op: Op)
    requires op.VerifyOp? && Simulates(c, t, log, op.now) && op.id in t.records
    requires Some(t.records[op.id]) == RecordAt(c, log, op.id, op.now)
    requires OwnerOf(t, op.owner) == OwnerAt(c, log, op.owner, op.now)
    requires SlotFull(c, t, op.owner) <==> NoSlot(c, log, op.owner, op.now)
    requires t.records[op.id].owner == op.owner && t.records[op.id].status.Pending?
    ensures var a := Judge(c, t, op.now, op.owner, op.action, op.payload, op.id, op.submitted);
            var b := RefVerify(c, log, op.now, op.owner, op.action, op.payload, op.id, op.submitted);
            a.1 == b.1 && Simulates(c, a.0, b.0, op.now)
  {
    var now, k, id := op.now, op.owner, op.id;
    var t2 := WithOwner(t, k, OwnerOf(t, k));
    SlotSimulates(c, t, log, now, k);
    assert t2.records[id].expiresAt > now;
    if t.records[id].action == op.action && t.records[id].payload == op.payload {
      if op.submitted == Some(t.records[id].answer) {
        FinishSimulates(c, t2, log, now, id, Used);
      } else {
        FinishFailStep(c, t2, log, now, k, id, WrongAnswer);
      }
    } else {
      FinishFailStep(c, t2, log, now, k, id, ContextMismatch);
    }
  }

  lemma VerifyStep(c: Config, t: Tables, log: Log, from: real, op: Op)
    requires op.VerifyOp? && Simulates(c, t, log, from) && from <= op.now
    ensures Step(c, t, op).1 == RefStep(c, log, op).1
    ensures Simulates(c, Step(c, t, op).0, RefStep(c, log, op).0, op.now)
  {
    var now, k, id, t1 := op.now, op.owner, op.id, Cleanup(c, t, op.now);
    CleanupSimulates(c, t, log, from, now);
    assert SlotFull(c, t1, k) <==> NoSlot(c, log, k, now) by {
      CleanupMirrors(c, t, log, from, now);
      SameSlots(c, t1, log, k, now);
    }
    assert RecordOf(t1, id) == RecordAt(c, log, id, now) && OwnerOf(t1, k) == OwnerAt(c, log, k, now) by {
      CleanupMirrors(c, t, log, from, now);
    }
    if id !in t1.records {
      UnknownStep(c, t1, log, now, k);
    } else if t1.records[id].owner != k {
      JudgeForeign(c, t1, log, op);
    } else if t1.records[id].status.Pending? {
      JudgePending(c, t1, log, op);
    } else {
      JudgeFinished(c, t1, log, op);
    }
  }

  lemma {:induction false} RunSimulates(c: Config, ops: seq<Op>, from: real)
    requires Timely(ops) && (forall i :: 0 <= i < |ops| ==> ops[i].now <= from)
    ensures Run(c, ops).1 == RefRun(c, ops).1
    ensures Simulates(c, Run(c, ops).0, RefRun(c, ops).0, from)
  {
    if ops == [] {
      EmptySimulates(c, from);
    } else {
      var front, op := ops[..|ops| - 1], ops[|ops| - 1];
      RunSimulates(c, front, op.now);
      var t, log := Run(c, front).0, RefRun(c, front).0;
      if op.IssueOp? {
        IssueStep(c, t, log, op.now, op);
      } else {
        VerifyStep(c, t, log, op.now, op);
      }
      SimulatesLater(c, Run(c, ops).0, RefRun(c, ops).0, op.now, from);
    }
  }

  lemma SimulatesLater(c: Config, t: Tables, log: Log, from: real, later: real)
    requires Simulates(c, t, log, from) && from <= later
    ensures Simulates(c, t, log, later)
  {
  }

  /** The pruned manager answers exactly as the manager that forgets nothing. */
  lemma Refinement(c: Config, ops: seq<Op>)
    requires Timely(ops)
    ensures Run(c, ops).1 == RefRun(c, ops).1
  {
    RunSimulates(c, ops, if ops == [] then 0.0 else ops[|ops| - 1].now);
  }

  // ---- Windows over whole runs ----

  /** When the manager issued challenges to `k`, read off the outcomes of a run. */
  function IssuedStamps(ops: seq<Op>, outs: seq<Outcome>, k: Owner): seq<real>
    requires |outs| == |ops|
  {
    if ops == [] then []
    else
      var n := |ops| - 1;
      IssuedStamps(ops[..n], outs[..n], k)
      + if ops[n].owner == k && outs[n] == OfIssue(Issued) then [ops[n].now] else []
  }

  lemma {:induction false} StampsAreLogged(c: Config, ops: seq<Op>, k: Owner)
    ensures IssuedStamps(ops, RefRun(c, ops).1, k) == IssueTimes(RefRun(c, ops).0, k)
  {
    if ops != [] {
      var front, op := ops[..|ops| - 1], ops[|ops| - 1];
      StampsAreLogged(c, front, k);
      assert RefRun(c, ops).1[..|front|] == RefRun(c, front).1;
      StepStamps(c, RefRun(c, front).0, op, k);
    }
  }

  lemma StepStamps(c: Config, log: Log, op: Op, k: Owner)
    ensures IssueTimes(RefStep(c, log, op).0, k)
         == IssueTimes(log, k) + if op.owner == k && RefStep(c, log, op).1 == OfIssue(Issued) then [op.now] else []
  {
    if op.VerifyOp? {
      assert IssueTimes(RefStep(c, log, op).0, k) == IssueTimes(log, k) + [] by {
        VerifyStamps(c, log, op, k);
      }
    } else {
      assert IssueTimes(log, k) + [] == IssueTimes(log, k);
    }
  }

  lemma VerifyStamps(c: Config, log: Log, op: Op, k: Owner)
    requires op.VerifyOp?
    ensures IssueTimes(RefStep(c, log, op).0, k) == IssueTimes(log, k)
  {
    var e, f := StepEvents(c, log, op);
    NoStamps(log, RefStep(c, log, op).0, e, f, k);
  }

  lemma NoStamps(log: Log, r: Log, e: Event, f: Event, k: Owner)
    requires r in {log, Then(log, e), Then(Then(log, e), f)} && !e.IssueEvent? && !f.IssueEvent?
    ensures IssueTimes(r, k) == IssueTimes(log, k)
  {
    assert IssueTimes(Then(log, e), k) == IssueTimes(log, k);
    assert IssueTimes(Then(Then(log, e), f), k) == IssueTimes(Then(log, e), k);
  }

  /** Every event of `k` lies at or before `now`. */
  ghost predicate Past(c: Config, log: Log, k: Owner, now: real) {
    && AtMost(IssueTimes(log, k), now)
    && AtMost(FailureTimes(c, log, k), now)
    && (LastTrip(c, log, k).Some? ==> LastTrip(c, log, k).value <= now)
  }

  ghost predicate LogPaced(c: Config, log: Log, k: Owner) {
    && Paced(IssueTimes(log, k), c.issueWindow as real, c.issueLimit)
    && Paced(FailureTimes(c, log, k), c.failWindow as real, c.failLimit - 1)
  }

  /** An issue event finds room in its owner's window. */
  ghost predicate Roomy(c: Config, log: Log, e: Event) {
    e.IssueEvent? ==> |After(IssueTimes(log, e.owner), e.at - c.issueWindow as real)| < c.issueLimit
  }

  lemma IssuesPaced(c: Config, log: Log, e: Event, k: Owner)
    requires AtMost(IssueTimes(log, k), e.at)
    requires Paced(IssueTimes(log, k), c.issueWindow as real, c.issueLimit)
    requires Roomy(c, log, e)
    ensures AtMost(IssueTimes(Then(log, e), k), e.at)
    ensures Paced(IssueTimes(Then(log, e), k), c.issueWindow as real, c.issueLimit)
  {
    var stamps, stamps' := IssueTimes(log, k), IssueTimes(Then(log, e), k);
    if e.IssueEvent? && e.owner == k {
      assert stamps' == stamps + [e.at];
      NextPaced(stamps, e.at, c.issueWindow as real, c.issueLimit);
    } else {
      assert stamps' == stamps;
    }
  }

  lemma NextPaced(stamps: seq<real>, at: real, window: real, limit: int)
    requires Paced(stamps, window, limit) && AtMost(stamps, at) && |After(stamps, at - window)| < limit
    ensures Paced(stamps + [at], window, limit) && AtMost(stamps + [at], at)
  {
    PacedAppend(stamps, at, window, limit);
  }

  lemma FailuresPaced(c: Config, log: Log, e: Event, k: Owner)
    requires AtMost(FailureTimes(c, log, k), e.at)
    requires Paced(FailureTimes(c, log, k), c.failWindow as real, c.failLimit - 1)
    ensures AtMost(FailureTimes(c, Then(log, e), k), e.at)
    ensures Paced(FailureTimes(c, Then(log, e), k), c.failWindow as real, c.failLimit - 1)
  {
    var stamps, stamps' := FailureTimes(c, log, k), FailureTimes(c, Then(log, e), k);
    NextFailures(c, log, e, k, stamps, stamps', e.at - c.failWindow as real);
    if stamps' != stamps && stamps' != [] {
      NextPaced(stamps, e.at, c.failWindow as real, c.failLimit - 1);
    }
  }

  lemma NextFailures(c: Config, log: Log, e: Event, k: Owner, stamps: seq<real>, stamps': seq<real>, from: real)
    requires stamps == FailureTimes(c, log, k) && stamps' == FailureTimes(c, Then(log, e), k)
    requires from == e.at - c.failWindow as real
    ensures stamps' in {stamps, []} || (stamps' == stamps + [e.at] && |After(stamps, from)| < c.failLimit - 1)
  {
  }

  lemma EventPaced(c: Config, log: Log, e: Event, k: Owner)
    requires Past(c, log, k, e.at) && LogPaced(c, log, k)
    requires Roomy(c, log, e)
    ensures Past(c, Then(log, e), k, e.at) && LogPaced(c, Then(log, e), k)
  {
    IssuesPaced(c, log, e, k);
    FailuresPaced(c, log, e, k);
  }

  lemma IssueAppends(c: Config, log: Log, op: Op, e: Event)
    requires op.IssueOp? && e == IssueEvent(op.now, op.id, op.owner, op.action, op.payload, op.answer)
    ensures var r := RefStep(c, log, op).0; r == log || (r == Then(log, e) && Roomy(c, log, e))
  {
  }

  /** What one reference step appends: an admitted issue, or at most a finish and a failure. */
  lemma StepEvents(c: Config, log: Log, op: Op) returns (e: Event, f: Event)
    ensures e.at == op.now && f.at == op.now && f.FailureEvent?
    ensures var r := RefStep(c, log, op).0;
            r == log || r == Then(log, e) || (e.FinishEvent? && r == Then(Then(log, e), f))
    ensures Roomy(c, log, e) && (op.VerifyOp? ==> !e.IssueEvent?)
  {
    f := FailureEvent(op.now, op.owner);
    if op.IssueOp? {
      e := IssueEvent(op.now, op.id, op.owner, op.action, op.payload, op.answer);
      IssueAppends(c, log, op, e);
      if RefStep(c, log, op).0 == log {
        e := f;
      }
    } else {
      var r := RefStep(c, log, op).0;
      e := if r == log then f else if r.before == log then r.event else r.before.event;
    }
  }

  lemma StepPaced(c: Config, log: Log, op: Op, k: Owner)
    requires Past(c, log, k, op.now) && LogPaced(c, log, k)
    ensures Past(c, RefStep(c, log, op).0, k, op.now) && LogPaced(c, RefStep(c, log, op).0, k)
    ensures LastTrip(c, log, k).Some? ==>
              && LastTrip(c, RefStep(c, log, op).0, k).Some?
              && LastTrip(c, log, k).value <= LastTrip(c, RefStep(c, log, op).0, k).value
  {
    var r := RefStep(c, log, op).0;
    var e, f := StepEvents(c, log, op);
    if r != log {
      assert Past(c, Then(log, e), k, op.now) && LogPaced(c, Then(log, e), k) by {
        EventPaced(c, log, e, k);
      }
      if r != Then(log, e) {
        EventPaced(c, Then(log, e), f, k);
      }
    }
  }

  lemma PastLater(c: Config, log: Log, k: Owner, now: real, later: real)
    requires Past(c, log, k, now) && now <= later
    ensures Past(c, log, k, later)
  {
  }

  lemma {:induction false} RunPaced(c: Config, ops: seq<Op>, k: Owner, now: real)
    requires Timely(ops) && (forall i :: 0 <= i < |ops| ==> ops[i].now <= now)
    ensures Past(c, RefRun(c, ops).0, k, now) && LogPaced(c, RefRun(c, ops).0, k)
  {
    if ops != [] {
      var front, op := ops[..|ops| - 1], ops[|ops| - 1];
      RunPaced(c, front, k, op.now);
      var log := RefRun(c, front).0;
      StepPaced(c, log, op, k);
      assert RefRun(c, ops).0 == RefStep(c, log, op).0;
      PastLater(c, RefStep(c, log, op).0, k, op.now, now);
    }
  }

  lemma LogWindow(c: Config, log: Log, k: Owner, t: real)
    requires LogPaced(c, log, k)
    ensures InWindow(IssueTimes(log, k), t - c.issueWindow as real, t) <= c.issueLimit
    ensures InWindow(FailureTimes(c, log, k), t - c.failWindow as real, t) < c.failLimit
  {
    PacedWindow(IssueTimes(log, k), c.issueWindow as real, c.issueLimit, t);
    PacedWindow(FailureTimes(c, log, k), c.failWindow as real, c.failLimit - 1, t);
  }

  lemma WindowFills(stamps: seq<real>, window: real, limit: int, at: real, from: real)
    requires limit >= 1 && Paced(stamps, window, limit - 1) && AtMost(stamps, at) && window > 0.0 && from == at - window
    ensures |After(stamps, from)| + 1 >= limit <==> InWindow(stamps + [at], from, at) == limit
  {
    PacedCount(stamps, window, limit - 1, at);
  }

  lemma TripsByCount(c: Config, log: Log, k: Owner, at: real, stamps: seq<real>, from: real)
    requires stamps == FailureTimes(c, log, k) && from == at - c.failWindow as real
    ensures TripsAt(c, log, k, at) <==> |After(stamps, from)| + 1 >= c.failLimit
  {
  }

  lemma PastFailures(c: Config, log: Log, k: Owner, at: real, stamps: seq<real>)
    requires Past(c, log, k, at) && LogPaced(c, log, k) && stamps == FailureTimes(c, log, k)
    ensures AtMost(stamps, at) && Paced(stamps, c.failWindow as real, c.failLimit - 1)
  {
  }

  lemma TripCount(c: Config, log: Log, k: Owner, at: real)
    requires Past(c, log, k, at) && LogPaced(c, log, k)
    ensures TripsAt(c, log, k, at) <==>
            InWindow(FailureTimes(c, log, k) + [at], at - c.failWindow as real, at) == c.failLimit
  {
    var stamps, from := FailureTimes(c, log, k), at - c.failWindow as real;
    PastFailures(c, log, k, at, stamps);
    TripsByCount(c, log, k, at, stamps, from);
    WindowFills(stamps, c.failWindow as real, c.failLimit, at, from);
  }

  /** No window of the issue length ever holds more issuances than the limit, wherever it ends. */
  lemma IssueWindow(c: Config, ops: seq<Op>, k: Owner, t: real)
    requires Timely(ops)
    ensures InWindow(IssuedStamps(ops, Run(c, ops).1, k), t - c.issueWindow as real, t) <= c.issueLimit
  {
    var now := if ops == [] then 0.0 else ops[|ops| - 1].now;
    var log := RefRun(c, ops).0;
    assert IssuedStamps(ops, Run(c, ops).1, k) == IssueTimes(log, k) by {
      Refinement(c, ops);
      StampsAreLogged(c, ops, k);
    }
    assert LogPaced(c, log, k) by {
      RunPaced(c, ops, k, now);
    }
    LogWindow(c, log, k, t);
  }

  /** The owner's entry as the manager's next call at `at` finds it, after its cleanup. */
  ghost function EntryAt(c: Config, ops: seq<Op>, k: Owner, at: real): OwnerState {
    OwnerOf(Cleanup(c, Run(c, ops).0, at), k)
  }

  lemma EntryIsLogged(c: Config, ops: seq<Op>, k: Owner, at: real)
    requires Timely(ops) && forall i :: 0 <= i < |ops| ==> ops[i].now <= at
    ensures EntryAt(c, ops, k, at) == OwnerAt(c, RefRun(c, ops).0, k, at)
  {
    RunSimulates(c, ops, at);
    CleanOwnerLookup(c, Run(c, ops).0, k, at);
  }

  /** The failures the manager has counted against `k` since the last suspension stay below the limit
      in every window. However much of them it has pruned, the next failure suspends `k` exactly if it
      fills the window that ends there up to the limit; and `k` is suspended exactly while its last
      suspension runs. */
  lemma FailureWindow(c: Config, ops: seq<Op>, k: Owner, t: real, at: real)
    requires Timely(ops) && forall i :: 0 <= i < |ops| ==> ops[i].now <= at
    ensures var entry, log := EntryAt(c, ops, k, at), RefRun(c, ops).0;
            var failures := FailureTimes(c, log, k);
            && InWindow(failures, t - c.failWindow as real, t) < c.failLimit
            && (Trips(c, entry) <==> InWindow(failures + [at], at - c.failWindow as real, at) == c.failLimit)
            && (entry.Suspended(at) <==> SuspendedAt(c, log, k, at))
  {
    assert LogPaced(c, RefRun(c, ops).0, k) && Past(c, RefRun(c, ops).0, k, at) by {
      RunPaced(c, ops, k, at);
    }
    LogWindow(c, RefRun(c, ops).0, k, t);
    TripCount(c, RefRun(c, ops).0, k, at);
    EntryIsLogged(c, ops, k, at);
  }

  // ---- Suspensions ----

  lemma {:induction false} TripsAdvance(c: Config, ops: seq<Op>, n: nat, k: Owner, now: real)
    requires Timely(ops) && n <= |ops| && LastTrip(c, RefRun(c, ops[..n]).0, k).Some?
    requires forall i :: 0 <= i < |ops| ==> ops[i].now <= now
    ensures LastTrip(c, RefRun(c, ops).0, k).Some?
    ensures LastTrip(c, RefRun(c, ops[..n]).0, k).value <= LastTrip(c, RefRun(c, ops).0, k).value
  {
    if n == |ops| {
      assert ops[..n] == ops;
    } else {
      var front, op := ops[..|ops| - 1], ops[|ops| - 1];
      assert front[..n] == ops[..n];
      TripsAdvance(c, front, n, k, op.now);
      var log := RefRun(c, front).0;
      RunPaced(c, front, k, op.now);
      StepPaced(c, log, op, k);
      assert RefRun(c, ops).0 == RefStep(c, log, op).0;
    }
  }

  /** An owner entry that is suspended beyond `now` records the last suspension in the log. */
  lemma SuspensionIsLogged(c: Config, ops: seq<Op>, k: Owner, now: real)
    requires Timely(ops) && forall i :: 0 <= i < |ops| ==> ops[i].now <= now
    requires OwnerOf(Run(c, ops).0, k).Suspended(now)
    ensures LastTrip(c, RefRun(c, ops).0, k).Some?
    ensures OwnerOf(Run(c, ops).0, k).suspendedUntil.value == LastTrip(c, RefRun(c, ops).0, k).value + c.suspend as real
  {
    EntryIsLogged(c, ops, k, now);
    CleanOwnerLookup(c, Run(c, ops).0, k, now);
  }

  /** Once the manager has suspended `k`, nothing is issued to `k` and no answer of `k` is accepted
      before the suspension ends, whatever happens in between. */
  lemma SuspensionHolds(c: Config, ops: seq<Op>, i: nat, j: nat)
    requires Timely(ops) && i <= j < |ops|
    requires OwnerOf(Run(c, ops[..i]).0, ops[j].owner).Suspended(ops[j].now)
    ensures Run(c, ops).1[j] != OfIssue(Issued) && Run(c, ops).1[j] != OfVerify(Verified)
  {
    var before, k := ops[..j], ops[j].owner;
    assert before[..i] == ops[..i];
    SuspensionIsLogged(c, ops[..i], k, ops[j].now);
    TripsAdvance(c, before, i, k, ops[j].now);
    SuspendedRefuses(c, RefRun(c, before).0, ops[j]);
    OutcomeAt(c, ops, j);
    Refinement(c, ops);
  }

  lemma SuspendedRefuses(c: Config, log: Log, op: Op)
    requires SuspendedAt(c, log, op.owner, op.now)
    ensures RefStep(c, log, op).1 != OfIssue(Issued) && RefStep(c, log, op).1 != OfVerify(Verified)
  {
  }

  lemma EarlierOutcome(c: Config, ops: seq<Op>, j: nat)
    requires j < |ops| - 1
    ensures RefRun(c, ops).1[j] == RefRun(c, ops[..|ops| - 1]).1[j]
  {
  }

  lemma LastOutcome(c: Config, ops: seq<Op>)
    requires ops != []
    ensures var n := |ops| - 1;
            RefRun(c, ops).1[n] == RefStep(c, RefRun(c, ops[..n]).0, ops[n]).1
  {
  }

  lemma {:induction false} OutcomeStays(c: Config, ops: seq<Op>, n: nat, j: nat)
    requires j < n <= |ops|
    ensures RefRun(c, ops).1[j] == RefRun(c, ops[..n]).1[j]
  {
    if n == |ops| {
      assert ops[..n] == ops;
    } else {
      var front := ops[..|ops| - 1];
      assert front[..n] == ops[..n];
      EarlierOutcome(c, ops, j);
      OutcomeStays(c, front, n, j);
    }
  }

  lemma OutcomeAt(c: Config, ops: seq<Op>, j: nat)
    requires j < |ops|
    ensures RefRun(c, ops).1[j] == RefStep(c, RefRun(c, ops[..j]).0, ops[j]).1
  {
    var upto := ops[..j + 1];
    assert upto[..j] == ops[..j];
    OutcomeStays(c, ops, j + 1, j);
    LastOutcome(c, upto);
  }
}
