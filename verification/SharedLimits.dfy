/** Where the shared limits do let one owner change what another meets with. */
module SharedLimits {
  import opened Basics
  import opened ChallengeTables
  import opened ChallengeRuns
  import opened ChallengeIsolation
  import KeyDrift

  const ACTION := "send_note"
  const PAYLOAD := Payload(map[], None)

  function Once(): OwnerState {
    OwnerState([], [0.0], None)
  }

  function Challenge(c: Config, k: Owner): Record {
    NewRecord(c, 0.0, k, ACTION, PAYLOAD, "1.00")
  }

  function Finished(c: Config, k: Owner): Record {
    Challenge(c, k).Finish(Used, 0.0)
  }

  /** Two pending challenges fill the table, and the first failure suspends. */
  predicate Tight(c: Config) {
    && c.maxTotalPending == 2 && c.failLimit == 1
    && c.maxRecords >= 3 && c.issueLimit >= 2 && c.maxPending >= 2
  }

  /** `k` holds the challenge `x`, and `j` the challenge `f`: no place is left. */
  function Full(c: Config, k: Owner, j: Owner, x: Id, f: Id): Tables {
    Tables(map[x := Challenge(c, k), f := Challenge(c, j)], map[k := Once(), j := Once()])
  }

  /** `j` has finished its challenge. */
  function Freed(c: Config, k: Owner, j: Owner, x: Id, f: Id): Tables {
    Tables(map[x := Challenge(c, k), f := Finished(c, j)], map[k := Once(), j := Once()])
  }

  /** `k` has taken the place for `y`. */
  function Taken(c: Config, k: Owner, j: Owner, x: Id, f: Id, y: Id, second: Record): Tables {
    Tables(map[x := Challenge(c, k), f := Finished(c, j), y := second],
           map[k := OwnerState([], [0.0, 0.0], None), j := Once()])
  }

  /** `k` has failed instead. */
  function Suspended(c: Config, k: Owner, j: Owner, x: Id, f: Id): Tables {
    Full(c, k, j, x, f).(owners := map[k := OwnerState([], [0.0], Some(c.suspend as real)), j := Once()])
  }

  // ---- Cleanups change nothing ----

  lemma OwnerSteady(c: Config, issuedAt: seq<real>, until: Option<real>)
    requires KeyDrift.AllZero(issuedAt) && (until.Some? ==> until.value > 0.0)
    ensures var o := OwnerState([], issuedAt, until);
            CleanOwner(c, o, 0.0) == o
  {
    KeyDrift.CalmOwner(c, OwnerState([], issuedAt, until));
  }

  lemma AllSteady(c: Config, records: map<Id, Record>, owners: map<Owner, OwnerState>)
    requires forall id :: id in records ==> KeyDrift.RecordCalm(records[id])
    requires forall i :: i in owners ==> CleanOwner(c, owners[i], 0.0) == owners[i] && !owners[i].Idle()
    ensures var t := Tables(records, owners); Cleanup(c, t, 0.0) == t
  {
    KeyDrift.CalmRecords(c, records);
    assert CleanOwners(c, owners, records, 0.0) == owners;
  }

  lemma Steady(c: Config, records: map<Id, Record>, k: Owner, j: Owner, a: OwnerState, b: OwnerState)
    requires forall id :: id in records ==> KeyDrift.RecordCalm(records[id])
    requires CleanOwner(c, a, 0.0) == a && !a.Idle() && CleanOwner(c, b, 0.0) == b && !b.Idle()
    ensures var t := Tables(records, map[k := a, j := b]); Cleanup(c, t, 0.0) == t
  {
    var owners := map[k := a, j := b];
    forall i | i in owners ensures CleanOwner(c, owners[i], 0.0) == owners[i] && !owners[i].Idle() {
      assert owners[i] == if i == j then b else a;
    }
    AllSteady(c, records, owners);
  }

  lemma FullSteady(c: Config, k: Owner, j: Owner, x: Id, f: Id)
    ensures Cleanup(c, Full(c, k, j, x, f), 0.0) == Full(c, k, j, x, f)
  {
    OwnerSteady(c, [0.0], None);
    Steady(c, Full(c, k, j, x, f).records, k, j, Once(), Once());
  }

  lemma FreedSteady(c: Config, k: Owner, j: Owner, x: Id, f: Id)
    ensures Cleanup(c, Freed(c, k, j, x, f), 0.0) == Freed(c, k, j, x, f)
  {
    OwnerSteady(c, [0.0], None);
    Steady(c, Freed(c, k, j, x, f).records, k, j, Once(), Once());
  }

  lemma TakenSteady(c: Config, k: Owner, j: Owner, x: Id, f: Id, y: Id, second: Record)
    requires KeyDrift.RecordCalm(second)
    ensures Cleanup(c, Taken(c, k, j, x, f, y, second), 0.0) == Taken(c, k, j, x, f, y, second)
  {
    OwnerSteady(c, [0.0], None);
    OwnerSteady(c, [0.0, 0.0], None);
    Steady(c, Taken(c, k, j, x, f, y, second).records, k, j, OwnerState([], [0.0, 0.0], None), Once());
  }

  lemma SuspendedSteady(c: Config, k: Owner, j: Owner, x: Id, f: Id)
    ensures Cleanup(c, Suspended(c, k, j, x, f), 0.0) == Suspended(c, k, j, x, f)
  {
    OwnerSteady(c, [0.0], None);
    OwnerSteady(c, [0.0], Some(c.suspend as real));
    Steady(c, Full(c, k, j, x, f).records, k, j, OwnerState([], [0.0], Some(c.suspend as real)), Once());
  }

  // ---- Single calls at time zero ----

  /** The admission checks of an owner that is not suspended, by the counts. */
  lemma AdmitByCounts(c: Config, t: Tables, k: Owner, live: set<Id>, mine: set<Id>)
    requires k in t.owners && t.owners[k].suspendedUntil.None?
    requires PendingIds(t.records) == live && PendingIdsOf(t.records, k) == mine
    ensures AdmitIssue(c, t, 0.0, k).Issued? <==>
            |t.records| < c.maxRecords && |live| < c.maxTotalPending && |t.owners[k].issuedAt| < c.issueLimit
            && |mine| < c.maxPending
  {
  }

  lemma IssueSteady(c: Config, t: Tables, k: Owner, id: Id, live: set<Id>, mine: set<Id>)
    requires Cleanup(c, t, 0.0) == t && k in t.owners && t.owners[k] == Once()
    requires PendingIds(t.records) == live && PendingIdsOf(t.records, k) == mine
    ensures Issue(c, t, 0.0, k, ACTION, PAYLOAD, id, "1.00").0 ==
            if |t.records| < c.maxRecords && |live| < c.maxTotalPending && 1 < c.issueLimit && |mine| < c.maxPending
            then Register(c, t, 0.0, k, ACTION, PAYLOAD, id, "1.00") else t
  {
    assert WithOwner(t, k, t.owners[k]) == t;
    AdmitByCounts(c, t, k, live, mine);
  }

  /** The right answer to an owner's own pending challenge uses it up. */
  lemma AnswerSteady(c: Config, t: Tables, k: Owner, id: Id)
    requires Cleanup(c, t, 0.0) == t && k in t.owners && t.owners[k].suspendedUntil.None?
    requires id in t.records && t.records[id] == Challenge(c, k)
    ensures var (t', outcome) := Verify(c, t, 0.0, k, ACTION, PAYLOAD, id, Some("1.00"));
            t' == WithRecord(t, id, Finished(c, k)) && outcome.Verified?
  {
    assert WithOwner(t, k, t.owners[k]) == t;
    assert Judge(c, t, 0.0, k, ACTION, PAYLOAD, id, Some("1.00"))
        == JudgeOwn(c, t, 0.0, k, ACTION, PAYLOAD, id, Some("1.00"));
  }

  lemma FirstFailure(c: Config, t: Tables, k: Owner)
    requires c.failLimit == 1 && k in t.owners && t.owners[k] == Once()
    ensures NoteUnknown(c, t, 0.0, k) == WithOwner(t, k, OwnerState([], [0.0], Some(c.suspend as real)))
  {
    assert WithOwner(t, k, t.owners[k]) == t;
  }

  lemma VerifyUnknown(c: Config, t: Tables, k: Owner, id: Id)
    requires Cleanup(c, t, 0.0) == t && id !in t.records
    ensures Verify(c, t, 0.0, k, ACTION, PAYLOAD, id, Some("1.00")).0 == NoteUnknown(c, t, 0.0, k)
  {
  }

  // ---- With `j` ----

  lemma OtherFinishes(c: Config, k: Owner, j: Owner, x: Id, f: Id)
    requires k != j && x != f
    ensures Verify(c, Full(c, k, j, x, f), 0.0, j, ACTION, PAYLOAD, f, Some("1.00")).0 == Freed(c, k, j, x, f)
  {
    FullSteady(c, k, j, x, f);
    FullHolds(c, k, j, x, f);
    AnswerSteady(c, Full(c, k, j, x, f), j, f);
    FreedIs(c, k, j, x, f);
  }

  lemma FullHolds(c: Config, k: Owner, j: Owner, x: Id, f: Id)
    requires x != f
    ensures var t := Full(c, k, j, x, f);
            t.records[f] == Challenge(c, j) && j in t.owners && t.owners[j] == Once()
  {
  }

  lemma FreedIs(c: Config, k: Owner, j: Owner, x: Id, f: Id)
    requires x != f
    ensures WithRecord(Full(c, k, j, x, f), f, Finished(c, j)) == Freed(c, k, j, x, f)
  {
  }

  lemma FreedCounts(c: Config, k: Owner, j: Owner, x: Id, f: Id)
    requires k != j && x != f
    ensures var t := Freed(c, k, j, x, f);
            PendingIds(t.records) == {x} && PendingIdsOf(t.records, k) == {x} && |t.records| == 2 && |{x}| == 1
  {
  }

  lemma TakenIs(c: Config, k: Owner, j: Owner, x: Id, f: Id, y: Id)
    requires k != j && x != f && y !in {x, f}
    ensures Register(c, Freed(c, k, j, x, f), 0.0, k, ACTION, PAYLOAD, y, "1.00")
         == Taken(c, k, j, x, f, y, Challenge(c, k))
  {
    assert [0.0] + [0.0] == [0.0, 0.0];
  }

  lemma OwnIsIssued(c: Config, k: Owner, j: Owner, x: Id, f: Id, y: Id)
    requires Tight(c) && k != j && x != f && y !in {x, f}
    ensures Issue(c, Freed(c, k, j, x, f), 0.0, k, ACTION, PAYLOAD, y, "1.00").0
         == Taken(c, k, j, x, f, y, Challenge(c, k))
  {
    FreedSteady(c, k, j, x, f);
    FreedCounts(c, k, j, x, f);
    IssueSteady(c, Freed(c, k, j, x, f), k, y, {x}, {x});
    TakenIs(c, k, j, x, f, y);
  }

  lemma OwnIsVerified(c: Config, k: Owner, j: Owner, x: Id, f: Id, y: Id)
    requires k != j && x != f && y !in {x, f}
    ensures Verify(c, Taken(c, k, j, x, f, y, Challenge(c, k)), 0.0, k, ACTION, PAYLOAD, y, Some("1.00")).0
         == Taken(c, k, j, x, f, y, Finished(c, k))
  {
    var t := Taken(c, k, j, x, f, y, Challenge(c, k));
    TakenSteady(c, k, j, x, f, y, Challenge(c, k));
    TakenHolds(c, k, j, x, f, y, Challenge(c, k));
    AnswerSteady(c, t, k, y);
    AnsweredIs(c, k, j, x, f, y);
  }

  lemma TakenHolds(c: Config, k: Owner, j: Owner, x: Id, f: Id, y: Id, second: Record)
    requires k != j && x != f && y !in {x, f}
    ensures var t := Taken(c, k, j, x, f, y, second);
            && t.records[x] == Challenge(c, k) && t.records[y] == second
            && k in t.owners && t.owners[k].suspendedUntil.None?
  {
  }

  lemma AnsweredIs(c: Config, k: Owner, j: Owner, x: Id, f: Id, y: Id)
    requires y !in {x, f}
    ensures WithRecord(Taken(c, k, j, x, f, y, Challenge(c, k)), y, Finished(c, k))
         == Taken(c, k, j, x, f, y, Finished(c, k))
  {
  }

  lemma FirstIsVerified(c: Config, k: Owner, j: Owner, x: Id, f: Id, y: Id)
    requires k != j && x != f && y !in {x, f}
    ensures Verify(c, Taken(c, k, j, x, f, y, Finished(c, k)), 0.0, k, ACTION, PAYLOAD, x, Some("1.00")).1.Verified?
  {
    TakenSteady(c, k, j, x, f, y, Finished(c, k));
    TakenHolds(c, k, j, x, f, y, Finished(c, k));
    AnswerSteady(c, Taken(c, k, j, x, f, y, Finished(c, k)), k, x);
  }

  // ---- Without ----

  lemma FullCounts(c: Config, k: Owner, j: Owner, x: Id, f: Id)
    requires k != j && x != f
    ensures var t := Full(c, k, j, x, f);
            PendingIds(t.records) == {x, f} && PendingIdsOf(t.records, k) == {x} && |{x, f}| == 2
  {
  }

  lemma OwnIsRefused(c: Config, k: Owner, j: Owner, x: Id, f: Id, y: Id)
    requires Tight(c) && k != j && x != f
    ensures Issue(c, Full(c, k, j, x, f), 0.0, k, ACTION, PAYLOAD, y, "1.00").0 == Full(c, k, j, x, f)
  {
    FullSteady(c, k, j, x, f);
    FullCounts(c, k, j, x, f);
    IssueSteady(c, Full(c, k, j, x, f), k, y, {x, f}, {x});
  }

  lemma UnknownSuspends(c: Config, k: Owner, j: Owner, x: Id, f: Id, y: Id)
    requires Tight(c) && k != j && x != f && y !in {x, f}
    ensures Verify(c, Full(c, k, j, x, f), 0.0, k, ACTION, PAYLOAD, y, Some("1.00")).0 == Suspended(c, k, j, x, f)
  {
    var t := Full(c, k, j, x, f);
    assert Verify(c, t, 0.0, k, ACTION, PAYLOAD, y, Some("1.00")).0 == NoteUnknown(c, t, 0.0, k) by {
      FullSteady(c, k, j, x, f);
      VerifyUnknown(c, t, k, y);
    }
    FirstFailure(c, t, k);
    SuspendedIs(c, k, j, x, f);
  }

  lemma SuspendedIs(c: Config, k: Owner, j: Owner, x: Id, f: Id)
    requires k != j
    ensures WithOwner(Full(c, k, j, x, f), k, OwnerState([], [0.0], Some(c.suspend as real)))
         == Suspended(c, k, j, x, f)
  {
  }

  lemma OwnIsSuspended(c: Config, k: Owner, j: Owner, x: Id, f: Id)
    requires k != j && x != f
    ensures Verify(c, Suspended(c, k, j, x, f), 0.0, k, ACTION, PAYLOAD, x, Some("1.00")).1.VerifySuspended?
  {
    SuspendedSteady(c, k, j, x, f);
  }

  // ---- Both runs ----

  function Ask(k: Owner, y: Id): Op {
    IssueOp(0.0, k, ACTION, PAYLOAD, y, "1.00")
  }

  function Reply(k: Owner, y: Id): Op {
    VerifyOp(0.0, k, ACTION, PAYLOAD, y, Some("1.00"))
  }

  function Together(k: Owner, j: Owner, f: Id, y: Id): seq<Op> {
    [Reply(j, f), Ask(k, y), Reply(k, y)]
  }

  lemma RunStep(c: Config, t: Tables, ops: seq<Op>, op: Op)
    ensures RunFrom(c, t, ops + [op]) == Step(c, RunFrom(c, t, ops), op).0
  {
    assert (ops + [op])[..|ops|] == ops;
  }

  lemma RunTwo(c: Config, t: Tables, a: Op, b: Op)
    ensures RunFrom(c, t, [a, b]) == Step(c, Step(c, t, a).0, b).0
  {
    RunStep(c, t, [], a);
    RunStep(c, t, [a], b);
    assert [] + [a] == [a] && [a] + [b] == [a, b];
  }

  lemma RunThree(c: Config, t: Tables, a: Op, b: Op, d: Op)
    ensures RunFrom(c, t, [a, b, d]) == Step(c, Step(c, Step(c, t, a).0, b).0, d).0
  {
    RunTwo(c, t, a, b);
    RunStep(c, t, [a, b], d);
    assert [a, b] + [d] == [a, b, d];
  }

  lemma FinishStep(c: Config, k: Owner, j: Owner, x: Id, f: Id)
    requires k != j && x != f
    ensures Step(c, Full(c, k, j, x, f), Reply(j, f)).0 == Freed(c, k, j, x, f)
  {
    OtherFinishes(c, k, j, x, f);
  }

  lemma AskStep(c: Config, k: Owner, j: Owner, x: Id, f: Id, y: Id)
    requires Tight(c) && k != j && x != f && y !in {x, f}
    ensures Step(c, Freed(c, k, j, x, f), Ask(k, y)).0 == Taken(c, k, j, x, f, y, Challenge(c, k))
  {
    OwnIsIssued(c, k, j, x, f, y);
  }

  lemma ReplyStep(c: Config, k: Owner, j: Owner, x: Id, f: Id, y: Id)
    requires k != j && x != f && y !in {x, f}
    ensures Step(c, Taken(c, k, j, x, f, y, Challenge(c, k)), Reply(k, y)).0 == Taken(c, k, j, x, f, y, Finished(c, k))
  {
    OwnIsVerified(c, k, j, x, f, y);
  }

  lemma TogetherRun(c: Config, k: Owner, j: Owner, x: Id, f: Id, y: Id)
    requires Tight(c) && k != j && x != f && y !in {x, f}
    ensures RunFrom(c, Full(c, k, j, x, f), Together(k, j, f, y)) == Taken(c, k, j, x, f, y, Finished(c, k))
  {
    RunThree(c, Full(c, k, j, x, f), Reply(j, f), Ask(k, y), Reply(k, y));
    FinishStep(c, k, j, x, f);
    AskStep(c, k, j, x, f, y);
    ReplyStep(c, k, j, x, f, y);
  }

  lemma RefusedStep(c: Config, k: Owner, j: Owner, x: Id, f: Id, y: Id)
    requires Tight(c) && k != j && x != f
    ensures Step(c, Full(c, k, j, x, f), Ask(k, y)).0 == Full(c, k, j, x, f)
  {
    OwnIsRefused(c, k, j, x, f, y);
  }

  lemma UnknownStep(c: Config, k: Owner, j: Owner, x: Id, f: Id, y: Id)
    requires Tight(c) && k != j && x != f && y !in {x, f}
    ensures Step(c, Full(c, k, j, x, f), Reply(k, y)).0 == Suspended(c, k, j, x, f)
  {
    UnknownSuspends(c, k, j, x, f, y);
  }

  lemma OwnRun(c: Config, k: Owner, j: Owner, x: Id, f: Id, y: Id)
    requires Tight(c) && k != j && x != f && y !in {x, f}
    ensures RunFrom(c, Full(c, k, j, x, f), OwnOps(Together(k, j, f, y), k)) == Suspended(c, k, j, x, f)
  {
    OwnOnly(k, j, f, y);
    RunTwo(c, Full(c, k, j, x, f), Ask(k, y), Reply(k, y));
    RefusedStep(c, k, j, x, f, y);
    UnknownStep(c, k, j, x, f, y);
  }

  lemma OwnOnly(k: Owner, j: Owner, f: Id, y: Id)
    requires k != j
    ensures OwnOps(Together(k, j, f, y), k) == [Ask(k, y), Reply(k, y)]
  {
    var ops := Together(k, j, f, y);
    assert ops[..2][..1] == ops[..1] == [Reply(j, f)];
    assert OwnOps(ops[..1], k) == [] && OwnOps(ops[..2], k) == [Ask(k, y)];
  }

  lemma RunsFit(c: Config, k: Owner, j: Owner, x: Id, f: Id, y: Id)
    requires y !in {x, f}
    ensures WellFormed(Full(c, k, j, x, f)) && Timely(Together(k, j, f, y))
    ensures FreshIds(Full(c, k, j, x, f), Together(k, j, f, y))
  {
  }

  lemma StillHolds(c: Config, k: Owner, j: Owner, x: Id, f: Id, y: Id)
    requires x != f && x != y
    ensures Holds(c, Taken(c, k, j, x, f, y, Finished(c, k)), k, x, 0.0)
  {
    assert KeyDrift.RecordCalm(Challenge(c, k));
  }

  /**
   `NonInterference` needs its condition on answers. `k` holds the challenge `x`, and `j` holds the
   last pending place. In the run, `j` finishes its challenge, `k` is issued `y`, answers it rightly,
   and the right answer to `x` is accepted. Without the answer of `j`, `k` is not issued `y`; the same
   answer to it is a failure that suspends `k`, and the right answer to `x` is refused.
   */
  lemma SharedLimitsShow(c: Config, k: Owner, j: Owner, x: Id, f: Id, y: Id)
    requires Tight(c) && k != j && x != f && y !in {x, f}
    ensures var t, ops, op := Full(c, k, j, x, f), Together(k, j, f, y), Reply(k, x);
            && WellFormed(t) && Timely(ops) && FreshIds(t, ops) && Holds(c, RunFrom(c, t, ops), k, x, 0.0)
            && Step(c, RunFrom(c, t, ops), op).1 == OfVerify(Verified)
            && Step(c, RunFrom(c, t, OwnOps(ops, k)), op).1.verify.VerifySuspended?
  {
    RunsFit(c, k, j, x, f, y);
    TogetherRun(c, k, j, x, f, y);
    OwnRun(c, k, j, x, f, y);
    StillHolds(c, k, j, x, f, y);
    OwnIsSuspended(c, k, j, x, f);
    FirstIsVerified(c, k, j, x, f, y);
  }
}
