/** Other owners cannot change how a pending challenge is judged. */
module ChallengeIsolation {
  import opened Basics
  import opened ChallengeTables
  import opened ChallengeRuns

  /** Tables after `ops`, starting from `t`. */
  ghost function RunFrom(c: Config, t: Tables, ops: seq<Op>): Tables {
    if ops == [] then t else Step(c, RunFrom(c, t, ops[..|ops| - 1]), ops[|ops| - 1]).0
  }

  lemma StepWellFormed(c: Config, t: Tables, op: Op)
    requires WellFormed(t)
    ensures WellFormed(Step(c, t, op).0)
  {
    match op
    case IssueOp(now, k, action, payload, id, answer) => IssueWellFormed(c, t, now, k, action, payload, id, answer);
    case VerifyOp(now, k, action, payload, id, answer) => VerifyWellFormed(c, t, now, k, action, payload, id, answer);
  }

  /** A step touches one record and one owner of the cleaned tables; a verification only ever
      finishes a pending record of the caller, and an issue puts one in the caller's name. */
  lemma StepFrame(c: Config, t: Tables, op: Op)
    ensures var t1, s := Cleanup(c, t, op.now), Step(c, t, op).0;
            && (forall id :: id != op.id ==> RecordOf(s, id) == RecordOf(t1, id))
            && (forall k :: k != op.owner ==> OwnerOf(s, k) == OwnerOf(t1, k))
            && (RecordOf(s, op.id) == RecordOf(t1, op.id)
                || (RecordOf(s, op.id).Some? && RecordOf(s, op.id).value.owner == op.owner
                    && (op.VerifyOp? ==>
                          && RecordOf(t1, op.id).Some? && RecordOf(t1, op.id).value.owner == op.owner
                          && RecordOf(t1, op.id).value.status.Pending?
                          && !RecordOf(s, op.id).value.status.Pending?)))
  {
    var t1 := Cleanup(c, t, op.now);
    if op.IssueOp? {
      IssueFrame(c, t1, op);
    } else if op.id in t1.records {
      JudgeFrame(c, t1, op);
    }
  }

  lemma IssueFrame(c: Config, t: Tables, op: Op)
    requires op.IssueOp?
    ensures var s := IssueClean(c, t, op.now, op.owner, op.action, op.payload, op.id, op.answer).0;
            && (forall id :: id != op.id ==> RecordOf(s, id) == RecordOf(t, id))
            && (forall k :: k != op.owner ==> OwnerOf(s, k) == OwnerOf(t, k))
            && (RecordOf(s, op.id) == RecordOf(t, op.id)
                || (RecordOf(s, op.id).Some? && RecordOf(s, op.id).value.owner == op.owner))
  {
  }

  lemma JudgeFrame(c: Config, t: Tables, op: Op)
    requires op.VerifyOp? && op.id in t.records
    ensures var s := Judge(c, t, op.now, op.owner, op.action, op.payload, op.id, op.submitted).0;
            && (forall id :: id != op.id ==> RecordOf(s, id) == RecordOf(t, id))
            && (forall k :: k != op.owner ==> OwnerOf(s, k) == OwnerOf(t, k))
            && (RecordOf(s, op.id) == RecordOf(t, op.id)
                || (RecordOf(s, op.id).Some? && RecordOf(s, op.id).value.owner == op.owner
                    && t.records[op.id].owner == op.owner
                    && t.records[op.id].status.Pending? && !RecordOf(s, op.id).value.status.Pending?))
  {
  }

  // ---- One owner's view of the tables ----

  /** The record of `k` under `id`, as it counts at `now`. */
  function Mine(c: Config, t: Tables, k: Owner, id: Id, now: real): Option<Record> {
    var r := CleanRecord(c, RecordOf(t, id), now);
    if r.Some? && r.value.owner == k then r else None
  }

  predicate Holds(c: Config, t: Tables, k: Owner, id: Id, now: real) {
    Mine(c, t, k, id, now).Some? && Mine(c, t, k, id, now).value.status.Pending?
  }

  /** The two tables tell `k` the same about its own records and its own history. */
  ghost predicate Agree(c: Config, s: Tables, t: Tables, k: Owner, now: real) {
    && (forall id :: Mine(c, s, k, id, now) == Mine(c, t, k, id, now))
    && CleanOwner(c, OwnerOf(s, k), now) == CleanOwner(c, OwnerOf(t, k), now)
  }

  lemma MineLater(c: Config, t: Tables, k: Owner, id: Id, now: real, later: real)
    requires WellFormed(t) && now <= later
    ensures Mine(c, t, k, id, later)
         == if Mine(c, t, k, id, now).Some? then CleanRecord(c, Mine(c, t, k, id, now), later) else None
  {
    CleanRecordAgain(c, RecordOf(t, id), now, later);
  }

  /** What a verdict reads of an owner's history; the issue stamps are not part of it. */
  predicate SameHistory(a: OwnerState, b: OwnerState) {
    a.failures == b.failures && a.suspendedUntil == b.suspendedUntil
  }

  /** The same, except for the records under the ids in `out` and for when challenges were issued. */
  ghost predicate AgreeBut(c: Config, s: Tables, t: Tables, k: Owner, now: real, out: set<Id>) {
    && (forall id :: id !in out ==> Mine(c, s, k, id, now) == Mine(c, t, k, id, now))
    && SameHistory(CleanOwner(c, OwnerOf(s, k), now), CleanOwner(c, OwnerOf(t, k), now))
  }

  lemma HistoryLater(c: Config, a: OwnerState, b: OwnerState, now: real, later: real)
    requires now <= later && SameHistory(CleanOwner(c, a, now), CleanOwner(c, b, now))
    ensures SameHistory(CleanOwner(c, a, later), CleanOwner(c, b, later))
  {
    assert CleanOwner(c, CleanOwner(c, a, now), later) == CleanOwner(c, a, later) by {
      CleanOwnerAgain(c, a, now, later);
    }
    assert CleanOwner(c, CleanOwner(c, b, now), later) == CleanOwner(c, b, later) by {
      CleanOwnerAgain(c, b, now, later);
    }
  }

  lemma AgreeLater(c: Config, s: Tables, t: Tables, k: Owner, now: real, later: real, out: set<Id>)
    requires WellFormed(s) && WellFormed(t) && now <= later && AgreeBut(c, s, t, k, now, out)
    ensures AgreeBut(c, s, t, k, later, out)
  {
    forall id | id !in out ensures Mine(c, s, k, id, later) == Mine(c, t, k, id, later) {
      MineLater(c, s, k, id, now, later);
      MineLater(c, t, k, id, now, later);
    }
    HistoryLater(c, OwnerOf(s, k), OwnerOf(t, k), now, later);
  }

  lemma AgreeTransitive(c: Config, r: Tables, s: Tables, t: Tables, k: Owner, now: real)
    requires Agree(c, r, s, k, now) && Agree(c, s, t, k, now)
    ensures Agree(c, r, t, k, now)
  {
  }

  lemma AgreeButTransitive(c: Config, r: Tables, s: Tables, t: Tables, k: Owner, now: real, out: set<Id>)
    requires Agree(c, r, s, k, now) && AgreeBut(c, s, t, k, now, out)
    ensures AgreeBut(c, r, t, k, now, out)
  {
    forall id | id !in out ensures Mine(c, r, k, id, now) == Mine(c, t, k, id, now) {
      assert Mine(c, r, k, id, now) == Mine(c, s, k, id, now);
    }
  }

  /** A cleanup at `now` changes nothing about what counts at `now`. */
  lemma CleanupAgrees(c: Config, t: Tables, k: Owner, now: real)
    requires WellFormed(t)
    ensures Agree(c, Cleanup(c, t, now), t, k, now)
  {
    forall id ensures Mine(c, Cleanup(c, t, now), k, id, now) == Mine(c, t, k, id, now) {
      CleanRecordsLookup(c, t, id, now);
      CleanRecordAgain(c, RecordOf(t, id), now, now);
    }
    CleanOwnerLookup(c, t, k, now);
    CleanOwnerAgain(c, OwnerOf(t, k), now, now);
  }

  // ---- Other owners ----

  /** Updates under another owner's name leave the view of `k` alone. */
  lemma ForeignUpdate(c: Config, s: Tables, t: Tables, k: Owner, now: real)
    requires OwnerOf(s, k) == OwnerOf(t, k)
    requires forall id :: RecordOf(s, id) == RecordOf(t, id)
                       || ((RecordOf(t, id).Some? ==> RecordOf(t, id).value.owner != k)
                           && (RecordOf(s, id).Some? ==> RecordOf(s, id).value.owner != k))
    ensures Agree(c, s, t, k, now)
  {
    forall id ensures Mine(c, s, k, id, now) == Mine(c, t, k, id, now) {
      assert RecordOf(s, id) == RecordOf(t, id) || RecordOf(s, id) != RecordOf(t, id);
    }
  }

  lemma ForeignStep(c: Config, t: Tables, op: Op, k: Owner)
    requires WellFormed(t) && op.owner != k
    requires op.IssueOp? ==> Mine(c, t, k, op.id, op.now).None?
    ensures Agree(c, Step(c, t, op).0, t, k, op.now)
  {
    var t1, s := Cleanup(c, t, op.now), Step(c, t, op).0;
    CleanupAgrees(c, t, k, op.now);
    assert RecordOf(t1, op.id) == CleanRecord(c, RecordOf(t, op.id), op.now) by {
      CleanRecordsLookup(c, t, op.id, op.now);
    }
    StepFrame(c, t, op);
    ForeignUpdate(c, s, t1, k, op.now);
    AgreeTransitive(c, s, t1, t, k, op.now);
  }

  // ---- The owner's own answers ----

  /** A holder of a pending challenge has a slot, so its failures are always counted. */
  lemma HolderHasSlot(c: Config, t: Tables, k: Owner, id: Id, now: real)
    requires WellFormed(t) && Holds(c, t, k, id, now)
    ensures k in Cleanup(c, t, now).owners
    ensures OwnerOf(Cleanup(c, t, now), k) == CleanOwner(c, OwnerOf(t, k), now)
  {
    CleanRecordsLookup(c, t, id, now);
    CleanOwnerLookup(c, t, k, now);
    assert HasPending(Cleanup(c, t, now).records, k);
  }

  /** What the owner's view becomes after a verification of its own, from the view alone. */
  function OwnEffect(c: Config, r: Option<Record>, o: OwnerState, op: Op): (Option<Record>, OwnerState)
    requires op.VerifyOp?
  {
    if (r.Some? && r.value.status.Used?) || o.Suspended(op.now) then (r, o)
    else if r.None? then (r, MarkFailure(c, o, op.now))
    else if r.value.action != op.action || r.value.payload != op.payload then
      (if r.value.status.Pending? then Some(r.value.Finish(Failed, op.now)) else r, MarkFailure(c, o, op.now))
    else if r.value.status.Expired? then (r, o)
    else if r.value.status.Failed? then (r, MarkFailure(c, o, op.now))
    else if op.submitted != Some(r.value.answer) then
      (Some(r.value.Finish(Failed, op.now)), MarkFailure(c, o, op.now))
    else (Some(r.value.Finish(Used, op.now)), o)
  }

  lemma OwnVerify(c: Config, t: Tables, op: Op, id: Id)
    requires op.VerifyOp? && WellFormed(t) && Holds(c, t, op.owner, id, op.now)
    ensures var s := Step(c, t, op).0;
            var (r, o) := OwnEffect(c, Mine(c, t, op.owner, op.id, op.now),
                                    CleanOwner(c, OwnerOf(t, op.owner), op.now), op);
            && OwnerOf(s, op.owner) == o
            && (forall i :: i != op.id ==> RecordOf(s, i) == RecordOf(Cleanup(c, t, op.now), i))
            && (r.Some? ==> RecordOf(s, op.id) == r)
            && (r.None? ==> RecordOf(s, op.id) == RecordOf(Cleanup(c, t, op.now), op.id))
  {
    var t1 := Cleanup(c, t, op.now);
    assert op.owner in t1.owners && t1.owners[op.owner] == CleanOwner(c, OwnerOf(t, op.owner), op.now) by {
      HolderHasSlot(c, t, op.owner, id, op.now);
    }
    assert RecordOf(t1, op.id) == CleanRecord(c, RecordOf(t, op.id), op.now) by {
      CleanRecordsLookup(c, t, op.id, op.now);
    }
    OwnJudge(c, t1, op);
  }

  /** The same on tables just cleaned, in which the caller holds a slot. */
  lemma OwnJudge(c: Config, t: Tables, op: Op)
    requires op.VerifyOp? && op.owner in t.owners
    ensures var s := if op.id !in t.records then NoteUnknown(c, t, op.now, op.owner)
                     else Judge(c, t, op.now, op.owner, op.action, op.payload, op.id, op.submitted).0;
            var found := RecordOf(t, op.id);
            var (r, o) := OwnEffect(c, if found.Some? && found.value.owner == op.owner then found else None,
                                    t.owners[op.owner], op);
            && OwnerOf(s, op.owner) == o
            && (forall i :: i != op.id ==> RecordOf(s, i) == RecordOf(t, i))
            && RecordOf(s, op.id) == if r.Some? then r else found
  {
  }

  /** After a verification of its own, the view of `k` is a function of its view before. */
  lemma OwnView(c: Config, t: Tables, op: Op, id: Id, i: Id)
    requires op.VerifyOp? && WellFormed(t) && Holds(c, t, op.owner, id, op.now)
    ensures var s, k := Step(c, t, op).0, op.owner;
            var (r, o) := OwnEffect(c, Mine(c, t, k, op.id, op.now), CleanOwner(c, OwnerOf(t, k), op.now), op);
            && OwnerOf(s, k) == o
            && Mine(c, s, k, i, op.now)
               == if i == op.id then (if r.Some? then CleanRecord(c, r, op.now) else None) else Mine(c, t, k, i, op.now)
  {
    var s, t1, k := Step(c, t, op).0, Cleanup(c, t, op.now), op.owner;
    OwnVerify(c, t, op, id);
    assert Mine(c, t1, k, i, op.now) == Mine(c, t, k, i, op.now) by {
      CleanupAgrees(c, t, k, op.now);
    }
    if i != op.id {
      assert RecordOf(s, i) == RecordOf(t1, i);
    } else {
      OwnRecord(c, t, op, k);
    }
  }

  /** Where there is no record of `k`, an effect on its own records leaves it so. */
  lemma OwnRecord(c: Config, t: Tables, op: Op, k: Owner)
    requires op.VerifyOp? && WellFormed(t) && op.owner == k
    ensures var r := OwnEffect(c, Mine(c, t, k, op.id, op.now), CleanOwner(c, OwnerOf(t, k), op.now), op).0;
            && (r.Some? ==> r.value.owner == k)
            && (r.None? <==> Mine(c, t, k, op.id, op.now).None?)
  {
  }

  lemma EffectSame(c: Config, r: Option<Record>, a: OwnerState, b: OwnerState, op: Op)
    requires op.VerifyOp? && SameHistory(a, b)
    ensures var (x, y) := (OwnEffect(c, r, a, op), OwnEffect(c, r, b, op));
            x.0 == y.0 && SameHistory(x.1, y.1)
  {
  }

  lemma CleanSame(c: Config, a: OwnerState, b: OwnerState, now: real)
    requires SameHistory(a, b)
    ensures SameHistory(CleanOwner(c, a, now), CleanOwner(c, b, now))
  {
  }

  lemma OwnStep(c: Config, s: Tables, t: Tables, op: Op, id: Id, out: set<Id>)
    requires op.VerifyOp? && WellFormed(s) && WellFormed(t) && id !in out && op.id !in out
    requires AgreeBut(c, s, t, op.owner, op.now, out) && Holds(c, s, op.owner, id, op.now)
    ensures AgreeBut(c, Step(c, s, op).0, Step(c, t, op).0, op.owner, op.now, out)
  {
    var k, now := op.owner, op.now;
    var a, b := CleanOwner(c, OwnerOf(s, k), now), CleanOwner(c, OwnerOf(t, k), now);
    assert Mine(c, s, k, id, now) == Mine(c, t, k, id, now);
    assert Mine(c, s, k, op.id, now) == Mine(c, t, k, op.id, now);
    EffectSame(c, Mine(c, s, k, op.id, now), a, b, op);
    var s', t' := Step(c, s, op).0, Step(c, t, op).0;
    forall i | i !in out ensures Mine(c, s', k, i, now) == Mine(c, t', k, i, now) {
      assert Mine(c, s, k, i, now) == Mine(c, t, k, i, now);
      OwnView(c, s, op, id, i);
      OwnView(c, t, op, id, i);
    }
    OwnView(c, s, op, id, id);
    OwnView(c, t, op, id, id);
    CleanSame(c, OwnerOf(s', k), OwnerOf(t', k), now);
  }

  /** After an issue of its own, the view of `k` is a function of its view before and the outcome. */
  lemma OwnIssueView(c: Config, t: Tables, op: Op, id: Id, i: Id)
    requires op.IssueOp? && WellFormed(t) && Holds(c, t, op.owner, id, op.now)
    ensures var (s, outcome) := Step(c, t, op);
            var k, now, issued := op.owner, op.now, outcome == OfIssue(Issued);
            var o := CleanOwner(c, OwnerOf(t, k), now);
            && OwnerOf(s, k) == (if issued then o.(issuedAt := o.issuedAt + [now]) else o)
            && Mine(c, s, k, i, now)
               == if issued && i == op.id then
                    CleanRecord(c, Some(NewRecord(c, now, k, op.action, op.payload, op.answer)), now)
                  else Mine(c, t, k, i, now)
  {
    HolderHasSlot(c, t, op.owner, id, op.now);
    assert Mine(c, Cleanup(c, t, op.now), op.owner, i, op.now) == Mine(c, t, op.owner, i, op.now) by {
      CleanupAgrees(c, t, op.owner, op.now);
    }
  }

  /** Issued in one of the two runs only, a challenge is one more id they may differ at. */
  lemma OwnIssueStep(c: Config, s: Tables, t: Tables, op: Op, id: Id, out: set<Id>)
    requires op.IssueOp? && WellFormed(s) && WellFormed(t) && id !in out
    requires AgreeBut(c, s, t, op.owner, op.now, out) && Holds(c, s, op.owner, id, op.now)
    ensures var apart := Step(c, s, op).1.issue.Issued? != Step(c, t, op).1.issue.Issued?;
            AgreeBut(c, Step(c, s, op).0, Step(c, t, op).0, op.owner, op.now, if apart then out + {op.id} else out)
  {
    var k, now := op.owner, op.now;
    var s', t' := Step(c, s, op).0, Step(c, t, op).0;
    var apart := Step(c, s, op).1.issue.Issued? != Step(c, t, op).1.issue.Issued?;
    assert Mine(c, s, k, id, now) == Mine(c, t, k, id, now);
    forall i | i !in out && (apart ==> i != op.id) ensures Mine(c, s', k, i, now) == Mine(c, t', k, i, now) {
      assert Mine(c, s, k, i, now) == Mine(c, t, k, i, now);
      OwnIssueView(c, s, op, id, i);
      OwnIssueView(c, t, op, id, i);
    }
    OwnIssueView(c, s, op, id, id);
    OwnIssueView(c, t, op, id, id);
    CleanSame(c, OwnerOf(s', k), OwnerOf(t', k), now);
  }

  /** How a record of one's own is judged, from the record and one's own history alone. */
  function Verdict(c: Config, r: Record, o: OwnerState, op: Op): VerifyOutcome
    requires op.VerifyOp?
  {
    var failed := (reason: VerifyOutcome) => if Trips(c, o) then VerifySuspended(c.suspend) else reason;
    if r.status.Used? then AlreadyUsed
    else if o.Suspended(op.now) then VerifySuspended(SecondsUntil(o.suspendedUntil.value, op.now))
    else if r.action != op.action || r.payload != op.payload then failed(ContextMismatch)
    else if r.status.Expired? then HasExpired
    else if r.status.Failed? || op.submitted != Some(r.answer) then failed(WrongAnswer)
    else Verified
  }

  lemma VerdictOnOwn(c: Config, t: Tables, op: Op, id: Id)
    requires op.VerifyOp? && WellFormed(t) && Holds(c, t, op.owner, id, op.now)
    requires Mine(c, t, op.owner, op.id, op.now).Some?
    ensures Step(c, t, op).1 == OfVerify(Verdict(c, Mine(c, t, op.owner, op.id, op.now).value,
                                                 CleanOwner(c, OwnerOf(t, op.owner), op.now), op))
  {
    HolderHasSlot(c, t, op.owner, id, op.now);
    CleanRecordsLookup(c, t, op.id, op.now);
  }

  lemma SameVerdict(c: Config, s: Tables, t: Tables, op: Op, out: set<Id>)
    requires op.VerifyOp? && WellFormed(s) && WellFormed(t) && op.id !in out
    requires AgreeBut(c, s, t, op.owner, op.now, out) && Holds(c, s, op.owner, op.id, op.now)
    ensures Step(c, s, op).1 == Step(c, t, op).1
  {
    var r := Mine(c, s, op.owner, op.id, op.now).value;
    var o, o' := CleanOwner(c, OwnerOf(s, op.owner), op.now), CleanOwner(c, OwnerOf(t, op.owner), op.now);
    assert Mine(c, t, op.owner, op.id, op.now) == Some(r);
    SameHistoryVerdict(c, r, o, o', op);
    VerdictIs(c, s, op, r, o, Verdict(c, r, o, op));
    VerdictIs(c, t, op, r, o', Verdict(c, r, o, op));
  }

  lemma SameHistoryVerdict(c: Config, r: Record, o: OwnerState, o': OwnerState, op: Op)
    requires op.VerifyOp? && SameHistory(o, o')
    ensures Verdict(c, r, o, op) == Verdict(c, r, o', op)
  {
  }

  lemma VerdictIs(c: Config, t: Tables, op: Op, r: Record, o: OwnerState, v: VerifyOutcome)
    requires op.VerifyOp? && WellFormed(t) && Mine(c, t, op.owner, op.id, op.now) == Some(r) && r.status.Pending?
    requires o == CleanOwner(c, OwnerOf(t, op.owner), op.now) && v == Verdict(c, r, o, op)
    ensures Step(c, t, op).1 == OfVerify(v)
  {
    VerdictOnOwn(c, t, op, op.id);
  }

  // ---- Erasing everybody else ----

  /** The operations of `k` alone. */
  function OwnOps(ops: seq<Op>, k: Owner): seq<Op> {
    if ops == [] then []
    else OwnOps(ops[..|ops| - 1], k) + if ops[|ops| - 1].owner == k then [ops[|ops| - 1]] else []
  }

  lemma {:induction false} RunFromWellFormed(c: Config, t: Tables, ops: seq<Op>)
    requires WellFormed(t)
    ensures WellFormed(RunFrom(c, t, ops))
  {
    if ops != [] {
      RunFromWellFormed(c, t, ops[..|ops| - 1]);
      StepWellFormed(c, RunFrom(c, t, ops[..|ops| - 1]), ops[|ops| - 1]);
    }
  }

  /** Only an issue makes a record, so under any other id a pending record was there before. */
  lemma HeldBefore(c: Config, t: Tables, op: Op, k: Owner, id: Id, later: real)
    requires WellFormed(t) && op.now <= later && (op.IssueOp? ==> op.id != id)
    requires Holds(c, Step(c, t, op).0, k, id, later)
    ensures Holds(c, t, k, id, op.now)
  {
    StepFrame(c, t, op);
    assert RecordOf(Cleanup(c, t, op.now), id) == CleanRecord(c, RecordOf(t, id), op.now) by {
      CleanRecordsLookup(c, t, id, op.now);
    }
  }

  /** Every challenge is issued under an id that is neither in the tables nor used before. */
  ghost predicate FreshIds(t: Tables, ops: seq<Op>) {
    && (forall i :: 0 <= i < |ops| && ops[i].IssueOp? ==> ops[i].id !in t.records)
    && forall i, j :: 0 <= i < j < |ops| && ops[i].IssueOp? && ops[j].IssueOp? ==> ops[i].id != ops[j].id
  }

  /** Every record there is was there at the start or has been issued since. */
  lemma {:induction false} RecordsFromSomewhere(c: Config, t: Tables, ops: seq<Op>, id: Id)
    requires RecordOf(RunFrom(c, t, ops), id).Some?
    ensures id in t.records || exists i :: 0 <= i < |ops| && ops[i].IssueOp? && ops[i].id == id
  {
    if ops != [] {
      var front, op := ops[..|ops| - 1], ops[|ops| - 1];
      var s := RunFrom(c, t, front);
      if !(op.IssueOp? && op.id == id) {
        StepRecords(c, s, op, id);
        RecordsFromSomewhere(c, t, front, id);
        if i :| 0 <= i < |front| && front[i].IssueOp? && front[i].id == id {
          assert ops[i] == front[i];
        }
      }
    }
  }

  lemma StepRecords(c: Config, t: Tables, op: Op, id: Id)
    requires RecordOf(Step(c, t, op).0, id).Some? && !(op.IssueOp? && op.id == id)
    ensures RecordOf(t, id).Some?
  {
    StepFrame(c, t, op);
    assert RecordOf(Cleanup(c, t, op.now), id) == CleanRecord(c, RecordOf(t, id), op.now) by {
      CleanRecordsLookup(c, t, id, op.now);
    }
  }

  /** Nobody issues over a record of `k`. */
  lemma IssuedIdIsFree(c: Config, t: Tables, ops: seq<Op>, k: Owner)
    requires ops != [] && FreshIds(t, ops) && ops[|ops| - 1].IssueOp?
    ensures var n := |ops| - 1; Mine(c, RunFrom(c, t, ops[..n]), k, ops[n].id, ops[n].now).None?
  {
    var n := |ops| - 1;
    if RecordOf(RunFrom(c, t, ops[..n]), ops[n].id).Some? {
      RecordsFromSomewhere(c, t, ops[..n], ops[n].id);
    }
  }

  /** The challenges `k` is issued in only one of the two runs, the one with everybody and the one
      with `k` alone: the capacity limits are shared, and earlier such issues count against `k`. */
  ghost function Diverged(c: Config, t: Tables, ops: seq<Op>, k: Owner): set<Id> {
    if ops == [] then {}
    else
      var front, op := ops[..|ops| - 1], ops[|ops| - 1];
      var before := Diverged(c, t, front, k);
      if op.IssueOp? && op.owner == k
         && Step(c, RunFrom(c, t, front), op).1.issue.Issued? != Step(c, RunFrom(c, t, OwnOps(front, k)), op).1.issue.Issued?
      then before + {op.id} else before
  }

  /** `k` answers no challenge that exists in only one of the two runs. */
  ghost predicate AnswersShared(c: Config, t: Tables, ops: seq<Op>, k: Owner) {
    ops != [] ==>
      var front, op := ops[..|ops| - 1], ops[|ops| - 1];
      && AnswersShared(c, t, front, k)
      && (op.VerifyOp? && op.owner == k ==> op.id !in Diverged(c, t, front, k))
  }

  lemma {:induction false} DivergedIsNew(c: Config, t: Tables, ops: seq<Op>, k: Owner, id: Id)
    requires FreshIds(t, ops) && id in t.records
    ensures id !in Diverged(c, t, ops, k)
  {
    if ops != [] {
      DivergedIsNew(c, t, ops[..|ops| - 1], k, id);
    }
  }

  /**
   Non-interference. Take any run in which everybody issues and verifies as they like, and let a
   challenge of `k` that was there at the start still be pending at the end. Then erasing everybody
   else's operations leaves `k` with the same history and the same records, but for challenges
   issued in only one of the two runs.
   */
  lemma {:induction false} Erasure(c: Config, t: Tables, ops: seq<Op>, k: Owner, id: Id, now: real)
    requires WellFormed(t) && Timely(ops) && (forall i :: 0 <= i < |ops| ==> ops[i].now <= now)
    requires FreshIds(t, ops) && AnswersShared(c, t, ops, k)
    requires id in t.records && Holds(c, RunFrom(c, t, ops), k, id, now)
    ensures AgreeBut(c, RunFrom(c, t, ops), RunFrom(c, t, OwnOps(ops, k)), k, now, Diverged(c, t, ops, k))
  {
    if ops != [] {
      var front, op := ops[..|ops| - 1], ops[|ops| - 1];
      assert WellFormed(RunFrom(c, t, ops)) && WellFormed(RunFrom(c, t, front))
          && WellFormed(RunFrom(c, t, OwnOps(front, k))) && WellFormed(RunFrom(c, t, OwnOps(ops, k))) by {
        RunFromWellFormed(c, t, ops);
        RunFromWellFormed(c, t, front);
        RunFromWellFormed(c, t, OwnOps(front, k));
        RunFromWellFormed(c, t, OwnOps(ops, k));
      }
      HeldBefore(c, RunFrom(c, t, front), op, k, id, now);
      Erasure(c, t, front, k, id, op.now);
      DivergedIsNew(c, t, front, k, id);
      ErasureStep(c, t, ops, k, id);
      AgreeLater(c, RunFrom(c, t, ops), RunFrom(c, t, OwnOps(ops, k)), k, op.now, now, Diverged(c, t, ops, k));
    }
  }

  lemma ErasureStep(c: Config, t: Tables, ops: seq<Op>, k: Owner, id: Id)
    requires ops != [] && FreshIds(t, ops) && AnswersShared(c, t, ops, k)
    requires var front, now := ops[..|ops| - 1], ops[|ops| - 1].now;
             && WellFormed(RunFrom(c, t, front)) && WellFormed(RunFrom(c, t, OwnOps(front, k)))
             && Holds(c, RunFrom(c, t, front), k, id, now) && id !in Diverged(c, t, front, k)
             && AgreeBut(c, RunFrom(c, t, front), RunFrom(c, t, OwnOps(front, k)), k, now, Diverged(c, t, front, k))
    ensures AgreeBut(c, RunFrom(c, t, ops), RunFrom(c, t, OwnOps(ops, k)), k, ops[|ops| - 1].now,
                     Diverged(c, t, ops, k))
  {
    var front, op := ops[..|ops| - 1], ops[|ops| - 1];
    var full, own, out := RunFrom(c, t, front), RunFrom(c, t, OwnOps(front, k)), Diverged(c, t, front, k);
    if op.owner != k {
      if op.IssueOp? {
        IssuedIdIsFree(c, t, ops, k);
      }
      ForeignStep(c, full, op, k);
      AgreeButTransitive(c, Step(c, full, op).0, full, own, k, op.now, out);
      assert OwnOps(ops, k) == OwnOps(front, k);
    } else {
      assert OwnOps(ops, k)[..|OwnOps(front, k)|] == OwnOps(front, k);
      if op.VerifyOp? {
        OwnStep(c, full, own, op, id, out);
      } else {
        OwnIssueStep(c, full, own, op, id, out);
      }
    }
  }

  /**
   So the verdict on a challenge that stays pending depends on the clock and on its owner's own
   operations only.
   */
  lemma NonInterference(c: Config, t: Tables, ops: seq<Op>, op: Op)
    requires WellFormed(t) && Timely(ops) && (forall i :: 0 <= i < |ops| ==> ops[i].now <= op.now)
    requires op.VerifyOp? && FreshIds(t, ops) && AnswersShared(c, t, ops, op.owner)
    requires op.id in t.records && Holds(c, RunFrom(c, t, ops), op.owner, op.id, op.now)
    ensures Step(c, RunFrom(c, t, ops), op).1 == Step(c, RunFrom(c, t, OwnOps(ops, op.owner)), op).1
  {
    RunFromWellFormed(c, t, ops);
    RunFromWellFormed(c, t, OwnOps(ops, op.owner));
    Erasure(c, t, ops, op.owner, op.id, op.now);
    DivergedIsNew(c, t, ops, op.owner, op.id);
    SameVerdict(c, RunFrom(c, t, ops), RunFrom(c, t, OwnOps(ops, op.owner)), op, Diverged(c, t, ops, op.owner));
  }
}
