/** Whoever reads a prompt and answers it rightly passes. */
module Solver {
  import opened Basics
  import opened ChallengeTables
  import opened ChallengeRuns
  import opened ChallengeIsolation
  import Answers
  import Grammar
  import Printer

  // ---- A challenge stays as issued until its owner answers it or it expires ----

  predicate Undisturbed(ops: seq<Op>, k: Owner, id: Id) {
    forall i :: 0 <= i < |ops| ==> if ops[i].IssueOp? then ops[i].id != id else !(ops[i].owner == k && ops[i].id == id)
  }

  lemma StepLeaves(c: Config, t: Tables, op: Op, r: Record, id: Id)
    requires RecordOf(t, id) == Some(r) && r.status.Pending? && r.finishedAt.None? && op.now < r.expiresAt
    requires if op.IssueOp? then op.id != id else !(op.owner == r.owner && op.id == id)
    ensures RecordOf(Step(c, t, op).0, id) == Some(r)
  {
    assert RecordOf(Cleanup(c, t, op.now), id) == Some(r) by {
      CleanRecordsLookup(c, t, id, op.now);
    }
    StepFrame(c, t, op);
  }

  lemma {:induction false} StaysPending(c: Config, t: Tables, ops: seq<Op>, r: Record, id: Id)
    requires RecordOf(t, id) == Some(r) && r.status.Pending? && r.finishedAt.None? && Undisturbed(ops, r.owner, id)
    requires forall i :: 0 <= i < |ops| ==> ops[i].now < r.expiresAt
    ensures RecordOf(RunFrom(c, t, ops), id) == Some(r)
  {
    if ops != [] {
      var front, op := ops[..|ops| - 1], ops[|ops| - 1];
      StaysPending(c, t, front, r, id);
      StepLeaves(c, RunFrom(c, t, front), op, r, id);
    }
  }

  // ---- The verdict on an answer given in time and in context ----

  lemma PendingHolds(c: Config, t: Tables, r: Record, id: Id, now: real)
    requires RecordOf(t, id) == Some(r) && r.status.Pending? && r.finishedAt.None? && now < r.expiresAt
    ensures Mine(c, t, r.owner, id, now) == Some(r) && Holds(c, t, r.owner, id, now)
  {
  }

  lemma VerdictByAnswer(c: Config, t: Tables, op: Op, r: Record)
    requires op.VerifyOp? && WellFormed(t) && RecordOf(t, op.id) == Some(r) && r.status.Pending? && r.finishedAt.None?
    requires op.now < r.expiresAt && r.owner == op.owner && r.action == op.action && r.payload == op.payload
    requires !OwnerOf(t, op.owner).Suspended(op.now)
    ensures Step(c, t, op).1 == OfVerify(Verified) <==> op.submitted == Some(r.answer)
  {
    PendingHolds(c, t, r, op.id, op.now);
    VerdictOnOwn(c, t, op, op.id);
  }

  lemma IssuedRecord(c: Config, t: Tables, op: Op)
    requires op.IssueOp? && Step(c, t, op).1 == OfIssue(Issued)
    ensures RecordOf(Step(c, t, op).0, op.id)
         == Some(NewRecord(c, op.now, op.owner, op.action, op.payload, op.answer))
  {
  }

  /** The operands and the operation a prompt asks for, as a reader recovers them. */
  function Asked(prompt: string): Option<(nat, nat, Answers.Operation)> {
    Printer.ReadSentence(Printer.Recover(prompt))
  }

  /**
   No right answer is lost. A challenge is issued with any prompt its reader understands; then anybody
   does anything, except that the owner does not answer this challenge. An answer that the owner
   gives in the same context, in time and while not suspended, is accepted if and only if it is a
   decimal that rounds to the exact result of what the prompt asks, rounded half up to cents.
   */
  lemma SolverIsVerified(c: Config, t: Tables, issue: Op, prompt: string, left: nat, right: nat,
                         operation: Answers.Operation, ops: seq<Op>, now: real, answer: string)
    requires WellFormed(t) && 1 <= left <= 99 && 1 <= right <= 99
    requires operation.Divide? ==> Answers.QuotientPlaces(left, right) >= 0
    requires issue.IssueOp? && issue.answer == Answers.Calculate(left, right, operation)
    requires Step(c, t, issue).1 == OfIssue(Issued) && Asked(prompt) == Some((left, right, operation))
    requires Undisturbed(ops, issue.owner, issue.id) && now < issue.now + c.expires as real
    requires forall i :: 0 <= i < |ops| ==> ops[i].now <= now
    requires !OwnerOf(RunFrom(c, Step(c, t, issue).0, ops), issue.owner).Suspended(now)
    ensures var (l, r, asked) := Asked(prompt).value;
            var submitted := VerifyOp(now, issue.owner, issue.action, issue.payload, issue.id, Answers.Normalize(answer));
            Step(c, RunFrom(c, Step(c, t, issue).0, ops), submitted).1 == OfVerify(Verified)
            <==> Grammar.Means(answer, Answers.TrueCents(l, r, asked))
  {
    var t1 := Step(c, t, issue).0;
    var record := NewRecord(c, issue.now, issue.owner, issue.action, issue.payload, issue.answer);
    IssuedRecord(c, t, issue);
    StepWellFormed(c, t, issue);
    RunFromWellFormed(c, t1, ops);
    StaysPending(c, t1, ops, record, issue.id);
    var submitted := VerifyOp(now, issue.owner, issue.action, issue.payload, issue.id, Answers.Normalize(answer));
    VerdictByAnswer(c, RunFrom(c, t1, ops), submitted, record);
    Grammar.RightAnswer(answer, left, right, operation);
  }
}
