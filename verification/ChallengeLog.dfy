/**
 A reference for the challenge manager that never deletes anything: it keeps the whole event
 log and works out every limit by counting over it. `Refinement` shows that the pruned tables
 give the same outcomes, and the later lemmas read the limits off the log.
 */
module ChallengeLog {
  import opened Basics
  import opened ChallengeTables

  datatype Event =
    | IssueEvent(at: real, id: Id, owner: Owner, action: string, payload: Payload, answer: string)
    | FailureEvent(at: real, owner: Owner)
    | FinishEvent(at: real, id: Id, status: Status)

  datatype Log = Empty | Then(before: Log, event: Event)

  // ---- Reading the log ----

  function Seen(log: Log): set<Id> {
    if log.Empty? then {}
    else Seen(log.before) + if log.event.IssueEvent? then {log.event.id} else {}
  }

  function Known(log: Log): set<Owner> {
    if log.Empty? then {}
    else Known(log.before) + if log.event.FinishEvent? then {} else {log.event.owner}
  }

  /** When `k` was issued challenges, oldest first. */
  function IssueTimes(log: Log, k: Owner): seq<real> {
    if log.Empty? then []
    else
      IssueTimes(log.before, k) +
      if log.event.IssueEvent? && log.event.owner == k then [log.event.at] else []
  }

  /** The counted failures of `k` since its last suspension began. */
  function FailureTimes(c: Config, log: Log, k: Owner): seq<real>
    decreases log, 0
  {
    if log.Empty? then []
    else if log.event.FailureEvent? && log.event.owner == k then
      if TripsAt(c, log.before, k, log.event.at) then []
      else FailureTimes(c, log.before, k) + [log.event.at]
    else FailureTimes(c, log.before, k)
  }

  /** Would one more failure at `at` be the one that reaches the limit within the window? */
  predicate TripsAt(c: Config, log: Log, k: Owner, at: real)
    decreases log, 1
  {
    |After(FailureTimes(c, log, k), at - c.failWindow as real)| + 1 >= c.failLimit
  }

  /** When the last suspension of `k` began. */
  function LastTrip(c: Config, log: Log, k: Owner): Option<real> {
    if log.Empty? then None
    else if log.event.FailureEvent? && log.event.owner == k && TripsAt(c, log.before, k, log.event.at) then
      Some(log.event.at)
    else LastTrip(c, log.before, k)
  }

  predicate SuspendedAt(c: Config, log: Log, k: Owner, now: real) {
    LastTrip(c, log, k).Some? && now < LastTrip(c, log, k).value + c.suspend as real
  }

  /** The record the log tells of, before time is taken into account. */
  function RecordIn(c: Config, log: Log, id: Id): Option<Record> {
    match log
    case Empty => None
    case Then(before, IssueEvent(at, i, owner, action, payload, answer)) =>
      if i == id then Some(NewRecord(c, at, owner, action, payload, answer)) else RecordIn(c, before, id)
    case Then(before, FinishEvent(at, i, status)) =>
      var r := RecordIn(c, before, id);
      if i == id && r.Some? then Some(r.value.Finish(status, at)) else r
    case Then(before, FailureEvent(_, _)) => RecordIn(c, before, id)
  }

  /** The record as it counts at `now`: expiry is implied, and history ends after retention. */
  function RecordAt(c: Config, log: Log, id: Id, now: real): Option<Record> {
    var r := RecordIn(c, log, id);
    if r.None? || r.value.Ends() + c.retention as real <= now then None
    else if r.value.status.Pending? && r.value.expiresAt <= now then
      Some(r.value.Finish(Expired, r.value.expiresAt))
    else r
  }

  function OwnerAt(c: Config, log: Log, k: Owner, now: real): OwnerState {
    History(c, FailureTimes(c, log, k), IssueTimes(log, k), LastTrip(c, log, k), now)
  }

  /** What still counts at `now` of these failures, issuances and last suspension. */
  function History(c: Config, failures: seq<real>, issued: seq<real>, trip: Option<real>, now: real): OwnerState {
    OwnerState(
      After(failures, now - c.failWindow as real),
      After(issued, now - c.issueWindow as real),
      if trip.Some? && now < trip.value + c.suspend as real then Some(trip.value + c.suspend as real) else None)
  }

  function Stored(c: Config, log: Log, now: real): set<Id> {
    set id | id in Seen(log) && RecordAt(c, log, id, now).Some?
  }

  function Live(c: Config, log: Log, now: real): set<Id> {
    set id | id in Seen(log) && RecordAt(c, log, id, now).Some? && RecordAt(c, log, id, now).value.status.Pending?
  }

  function LiveOf(c: Config, log: Log, k: Owner, now: real): set<Id> {
    set id | id in Seen(log) && RecordAt(c, log, id, now).Some?
             && RecordAt(c, log, id, now).value.status.Pending?
             && RecordAt(c, log, id, now).value.owner == k
  }

  /** An owner is remembered exactly while something about it can still matter. */
  predicate Active(c: Config, log: Log, k: Owner, now: real) {
    || After(IssueTimes(log, k), now - c.issueWindow as real) != []
    || After(FailureTimes(c, log, k), now - c.failWindow as real) != []
    || SuspendedAt(c, log, k, now)
    || LiveOf(c, log, k, now) != {}
  }

  function ActiveOwners(c: Config, log: Log, now: real): set<Owner> {
    set k | k in Known(log) && Active(c, log, k, now)
  }

  predicate NoSlot(c: Config, log: Log, k: Owner, now: real) {
    !Active(c, log, k, now) && |ActiveOwners(c, log, now)| >= c.maxRecords
  }

  lemma RecordIsSeen(c: Config, log: Log, id: Id)
    requires RecordIn(c, log, id).Some?
    ensures id in Seen(log) && RecordIn(c, log, id).value.owner in Known(log)
  {
  }

  lemma ActiveIsKnown(c: Config, log: Log, k: Owner, now: real)
    requires Active(c, log, k, now)
    ensures k in Known(log)
  {
    if k !in Known(log) {
      UnknownOwner(c, log, k);
    }
    if LiveOf(c, log, k, now) != {} {
      var id :| id in LiveOf(c, log, k, now);
      RecordIsSeen(c, log, id);
    }
  }

  lemma UnknownOwner(c: Config, log: Log, k: Owner)
    requires k !in Known(log)
    ensures IssueTimes(log, k) == [] && FailureTimes(c, log, k) == [] && LastTrip(c, log, k).None?
  {
    if log.Then? {
      assert k !in Known(log.before);
      UnknownOwner(c, log.before, k);
    }
  }

  // ---- The reference operations ----

  function ExpiriesAt(c: Config, log: Log, now: real, ids: set<Id>): (m: map<Id, real>)
    requires ids <= Stored(c, log, now)
    ensures m.Keys == ids
  {
    map id | id in ids :: RecordAt(c, log, id, now).value.expiresAt
  }

  function ReleasesAt(c: Config, log: Log, now: real, ids: set<Id>): (m: map<Id, real>)
    requires ids <= Stored(c, log, now)
    ensures m.Keys == ids
  {
    map id | id in ids :: RecordAt(c, log, id, now).value.Ends() + c.retention as real
  }

  ghost function RefAdmit(c: Config, log: Log, now: real, k: Owner): IssueOutcome {
    if NoSlot(c, log, k, now) then IssueLimited(StorageLimit, c.failWindow)
    else RefAdmitOwner(c, log, now, k, OwnerAt(c, log, k, now))
  }

  /** The checks on an owner whose history is `o`; the counts are over the log. */
  ghost function RefAdmitOwner(c: Config, log: Log, now: real, k: Owner, o: OwnerState): IssueOutcome {
    if o.Suspended(now) then IssueSuspended(SecondsUntil(o.suspendedUntil.value, now))
    else if |Stored(c, log, now)| >= c.maxRecords then
      IssueLimited(StorageLimit, SecondsUntil(
        Least(ReleasesAt(c, log, now, Stored(c, log, now))), now))
    else if |Live(c, log, now)| >= c.maxTotalPending then
      IssueLimited(GlobalPendingLimit, SecondsUntil(
        Least(ExpiriesAt(c, log, now, Live(c, log, now))), now))
    else if |o.issuedAt| >= c.issueLimit then
      IssueLimited(IssueLimit, SecondsUntil(o.issuedAt[0] + c.issueWindow as real, now))
    else if |LiveOf(c, log, k, now)| >= c.maxPending then
      IssueLimited(PendingLimit, SecondsUntil(
        Least(ExpiriesAt(c, log, now, LiveOf(c, log, k, now))), now))
    else Issued
  }

  ghost function RefIssue(c: Config, log: Log, now: real, k: Owner, action: string, payload: Payload,
                          id: Id, answer: string): (Log, IssueOutcome)
  {
    var outcome := RefAdmit(c, log, now, k);
    (if outcome.Issued? then Then(log, IssueEvent(now, id, k, action, payload, answer)) else log, outcome)
  }

  function RefFail(c: Config, log: Log, now: real, k: Owner, outcome: VerifyOutcome): (Log, VerifyOutcome) {
    (Then(log, FailureEvent(now, k)), if TripsAt(c, log, k, now) then VerifySuspended(c.suspend) else outcome)
  }

  function RefVerify(c: Config, log: Log, now: real, k: Owner, action: string, payload: Payload,
                     id: Id, answer: Option<string>): (Log, VerifyOutcome)
  {
    var r := RecordAt(c, log, id, now);
    var full, suspended := NoSlot(c, log, k, now), SuspendedAt(c, log, k, now);
    if r.None? then
      (if full || suspended then log else Then(log, FailureEvent(now, k)), UnknownId)
    else if r.value.owner == k && r.value.status.Used? then (log, AlreadyUsed)
    else if full then (log, VerifyLimited(StorageLimit, c.failWindow))
    else if suspended then
      (log, VerifySuspended(SecondsUntil(LastTrip(c, log, k).value + c.suspend as real, now)))
    else if r.value.owner != k then RefFail(c, log, now, k, WrongAnswer)
    else if r.value.action == action && r.value.payload == payload then
      match r.value.status
      case Expired => (log, HasExpired)
      case Pending =>
        if answer == Some(r.value.answer) then (Then(log, FinishEvent(now, id, Used)), Verified)
        else RefFail(c, Then(log, FinishEvent(now, id, Failed)), now, k, WrongAnswer)
      case _ => RefFail(c, log, now, k, WrongAnswer)
    else
      RefFail(c, if r.value.status.Pending? then Then(log, FinishEvent(now, id, Failed)) else log,
              now, k, ContextMismatch)
  }

  // ---- Simulation ----

  /** From `from` on, cleaning the tables shows exactly what the log shows. */
  ghost predicate Simulates(c: Config, t: Tables, log: Log, from: real) {
    && WellFormed(t)
    && (forall id, now :: now >= from ==> CleanRecord(c, RecordOf(t, id), now) == RecordAt(c, log, id, now))
    && forall k, now :: now >= from ==> CleanOwner(c, OwnerOf(t, k), now) == OwnerAt(c, log, k, now)
  }

  /** Freshly cleaned tables are the log as it counts now, entry by entry. */
  ghost predicate Mirrors(c: Config, t: Tables, log: Log, now: real) {
    && (forall id :: RecordOf(t, id) == RecordAt(c, log, id, now))
    && (forall k :: OwnerOf(t, k) == OwnerAt(c, log, k, now))
    && (forall k :: k in t.owners <==> Active(c, log, k, now))
  }

  lemma EmptySimulates(c: Config, from: real)
    ensures Simulates(c, Tables(map[], map[]), Empty, from)
  {
  }

  lemma CleanupSimulates(c: Config, t: Tables, log: Log, from: real, now: real)
    requires Simulates(c, t, log, from) && from <= now
    ensures Simulates(c, Cleanup(c, t, now), log, now)
  {
    var t1 := Cleanup(c, t, now);
    CleanupWellFormed(c, t, now);
    forall id, later | later >= now
      ensures CleanRecord(c, RecordOf(t1, id), later) == RecordAt(c, log, id, later)
    {
      CleanRecordsLookup(c, t, id, now);
      CleanRecordAgain(c, RecordOf(t, id), now, later);
    }
    forall k, later | later >= now
      ensures CleanOwner(c, OwnerOf(t1, k), later) == OwnerAt(c, log, k, later)
    {
      CleanOwnerLookup(c, t, k, now);
      CleanOwnerAgain(c, OwnerOf(t, k), now, later);
    }
  }

  lemma CleanupMirrors(c: Config, t: Tables, log: Log, from: real, now: real)
    requires Simulates(c, t, log, from) && from <= now
    ensures Mirrors(c, Cleanup(c, t, now), log, now)
  {
    var t1 := Cleanup(c, t, now);
    forall id ensures RecordOf(t1, id) == RecordAt(c, log, id, now) {
      CleanRecordsLookup(c, t, id, now);
    }
    forall k
      ensures OwnerOf(t1, k) == OwnerAt(c, log, k, now)
      ensures k in t1.owners <==> Active(c, log, k, now)
    {
      CleanOwnerLookup(c, t, k, now);
      assert CleanOwner(c, OwnerOf(t, k), now) == OwnerAt(c, log, k, now);
      PendingMeansLive(c, t1, log, k, now);
      if HasPending(t1.records, k) {
        var id :| id in t1.records && t1.records[id].status.Pending? && t1.records[id].owner == k;
        CleanRecordsLookup(c, t, id, now);
        assert t.records[id].owner == k;
      }
    }
  }

  lemma PendingMeansLive(c: Config, t: Tables, log: Log, k: Owner, now: real)
    requires forall id :: RecordOf(t, id) == RecordAt(c, log, id, now)
    ensures HasPending(t.records, k) <==> LiveOf(c, log, k, now) != {}
  {
    forall id | id in t.records ensures id in Seen(log) {
      assert RecordOf(t, id) == RecordAt(c, log, id, now);
      RecordIsSeen(c, log, id);
    }
    if HasPending(t.records, k) {
      var id :| id in t.records && t.records[id].status.Pending? && t.records[id].owner == k;
      assert RecordOf(t, id) == RecordAt(c, log, id, now);
      assert id in LiveOf(c, log, k, now);
    }
    if LiveOf(c, log, k, now) != {} {
      var id :| id in LiveOf(c, log, k, now);
      assert RecordOf(t, id) == RecordAt(c, log, id, now);
    }
  }

  /** The sets the limits count are the sets counted over the log. */
  lemma SameCounts(c: Config, t: Tables, log: Log, k: Owner, now: real)
    requires forall id :: RecordOf(t, id) == RecordAt(c, log, id, now)
    ensures t.records.Keys == Stored(c, log, now)
    ensures PendingIds(t.records) == Live(c, log, now)
    ensures PendingIdsOf(t.records, k) == LiveOf(c, log, k, now)
  {
    forall id | RecordAt(c, log, id, now).Some? ensures id in Seen(log) {
      RecordIsSeen(c, log, id);
    }
    forall id
      ensures id in t.records <==> id in Stored(c, log, now)
      ensures id in PendingIds(t.records) <==> id in Live(c, log, now)
      ensures id in PendingIdsOf(t.records, k) <==> id in LiveOf(c, log, k, now)
    {
      assert RecordOf(t, id) == RecordAt(c, log, id, now);
    }
  }

  lemma SameSlots(c: Config, t: Tables, log: Log, k: Owner, now: real)
    requires Mirrors(c, t, log, now)
    ensures SlotFull(c, t, k) <==> NoSlot(c, log, k, now)
  {
    forall j ensures j in t.owners <==> j in ActiveOwners(c, log, now) {
      if Active(c, log, j, now) {
        ActiveIsKnown(c, log, j, now);
      }
    }
    assert t.owners.Keys == ActiveOwners(c, log, now);
  }

  lemma SameDeadlines(c: Config, t: Tables, log: Log, now: real, ids: set<Id>)
    requires forall id :: RecordOf(t, id) == RecordAt(c, log, id, now)
    requires ids <= t.records.Keys && ids <= Stored(c, log, now)
    ensures Expiries(t.records, ids) == ExpiriesAt(c, log, now, ids)
    ensures Releases(c, t.records, ids) == ReleasesAt(c, log, now, ids)
  {
    forall id | id in ids ensures RecordAt(c, log, id, now) == Some(t.records[id]) {
      assert RecordOf(t, id) == RecordAt(c, log, id, now);
    }
  }

  lemma AdmitAgrees(c: Config, t: Tables, log: Log, now: real, k: Owner)
    requires Mirrors(c, t, log, now) && !SlotFull(c, t, k)
    ensures AdmitIssue(c, WithOwner(t, k, OwnerOf(t, k)), now, k) == RefAdmit(c, log, now, k)
  {
    var t2, o := WithOwner(t, k, OwnerOf(t, k)), OwnerAt(c, log, k, now);
    var stored, live, mine := Stored(c, log, now), Live(c, log, now), LiveOf(c, log, k, now);
    assert !NoSlot(c, log, k, now) by {
      SameSlots(c, t, log, k, now);
    }
    assert t2.owners[k] == o;
    assert t2.records == t.records;
    assert t.records.Keys == stored && PendingIds(t.records) == live && PendingIdsOf(t.records, k) == mine by {
      SameCounts(c, t, log, k, now);
    }
    assert Releases(c, t.records, stored) == ReleasesAt(c, log, now, stored) by {
      SameDeadlines(c, t, log, now, stored);
    }
    assert Expiries(t.records, live) == ExpiriesAt(c, log, now, live) by {
      SameDeadlines(c, t, log, now, live);
    }
    assert Expiries(t.records, mine) == ExpiriesAt(c, log, now, mine) by {
      SameDeadlines(c, t, log, now, mine);
    }
    SameAdmission(c, t2, log, now, k);
  }

  /** With equal owner state, counts and deadlines, the two sides take the same branch. */
  lemma SameAdmission(c: Config, t: Tables, log: Log, now: real, k: Owner)
    requires k in t.owners
    requires t.records.Keys == Stored(c, log, now)
    requires PendingIds(t.records) == Live(c, log, now)
    requires PendingIdsOf(t.records, k) == LiveOf(c, log, k, now)
    requires Releases(c, t.records, t.records.Keys) == ReleasesAt(c, log, now, Stored(c, log, now))
    requires Expiries(t.records, PendingIds(t.records)) == ExpiriesAt(c, log, now, Live(c, log, now))
    requires Expiries(t.records, PendingIdsOf(t.records, k)) == ExpiriesAt(c, log, now, LiveOf(c, log, k, now))
    ensures AdmitIssue(c, t, now, k) == RefAdmitOwner(c, log, now, k, t.owners[k])
  {
    assert |t.records| == |Stored(c, log, now)|;
  }

  // ---- One update on both sides ----

  lemma SlotSimulates(c: Config, t: Tables, log: Log, now: real, k: Owner)
    requires Simulates(c, t, log, now)
    ensures Simulates(c, WithOwner(t, k, OwnerOf(t, k)), log, now)
  {
    var t' := WithOwner(t, k, OwnerOf(t, k));
    assert forall j :: OwnerOf(t', j) == OwnerOf(t, j);
    assert forall id :: RecordOf(t', id) == RecordOf(t, id);
  }

  lemma IssueKeepsFailures(c: Config, log: Log, e: Event, k: Owner)
    requires e.IssueEvent?
    ensures LastTrip(c, Then(log, e), k) == LastTrip(c, log, k)
    ensures FailureTimes(c, Then(log, e), k) == FailureTimes(c, log, k)
  {
  }

  lemma IssueAdds(log: Log, e: Event, k: Owner)
    requires e.IssueEvent?
    ensures IssueTimes(Then(log, e), k) == if e.owner == k then IssueTimes(log, k) + [e.at] else IssueTimes(log, k)
  {
    assert IssueTimes(log, k) + [] == IssueTimes(log, k);
  }

  lemma HistoryIssue(c: Config, failures: seq<real>, issued: seq<real>, trip: Option<real>, at: real, later: real)
    ensures var o := History(c, failures, issued, trip, later);
            History(c, failures, issued + [at], trip, later)
            == if at > later - c.issueWindow as real then o.(issuedAt := o.issuedAt + [at]) else o
  {
    var bound := later - c.issueWindow as real;
    assert After(issued + [at], bound) == After(issued, bound) + if at > bound then [at] else [] by {
      AfterAppend(issued, at, bound);
    }
  }

  lemma OwnerAfterIssue(c: Config, log: Log, e: Event, k: Owner, later: real)
    requires e.IssueEvent?
    ensures var o := OwnerAt(c, log, k, later);
            OwnerAt(c, Then(log, e), k, later)
            == if e.owner == k && e.at > later - c.issueWindow as real
               then o.(issuedAt := o.issuedAt + [e.at]) else o
  {
    IssueKeepsFailures(c, log, e, k);
    IssueAdds(log, e, k);
    HistoryIssue(c, FailureTimes(c, log, k), IssueTimes(log, k), LastTrip(c, log, k), e.at, later);
  }

  lemma OwnerAfterFinish(c: Config, log: Log, e: Event, k: Owner, later: real)
    requires e.FinishEvent?
    ensures OwnerAt(c, Then(log, e), k, later) == OwnerAt(c, log, k, later)
  {
    assert LastTrip(c, Then(log, e), k) == LastTrip(c, log, k);
    assert FailureTimes(c, Then(log, e), k) == FailureTimes(c, log, k);
    assert IssueTimes(Then(log, e), k) == IssueTimes(log, k);
  }

  lemma FailureAdds(c: Config, log: Log, e: Event, k: Owner)
    requires e.FailureEvent?
    ensures FailureTimes(c, Then(log, e), k)
         == if e.owner != k then FailureTimes(c, log, k)
            else if TripsAt(c, log, k, e.at) then []
            else FailureTimes(c, log, k) + [e.at]
    ensures LastTrip(c, Then(log, e), k)
         == if e.owner == k && TripsAt(c, log, k, e.at) then Some(e.at) else LastTrip(c, log, k)
  {
  }

  lemma FailureKeepsIssues(log: Log, e: Event, k: Owner)
    requires e.FailureEvent?
    ensures IssueTimes(Then(log, e), k) == IssueTimes(log, k)
  {
    assert IssueTimes(log, k) + [] == IssueTimes(log, k);
  }

  lemma HistoryFailure(c: Config, failures: seq<real>, issued: seq<real>, trip: Option<real>, at: real, later: real)
    requires at <= later
    ensures var o := History(c, failures, issued, trip, later);
            && History(c, failures + [at], issued, trip, later)
               == (if at > later - c.failWindow as real then o.(failures := o.failures + [at]) else o)
            && History(c, [], issued, Some(at), later)
               == o.(failures := [], suspendedUntil :=
                     if later < at + c.suspend as real then Some(at + c.suspend as real) else None)
  {
    var bound := later - c.failWindow as real;
    assert After(failures + [at], bound) == After(failures, bound) + if at > bound then [at] else [] by {
      AfterAppend(failures, at, bound);
    }
  }

  lemma OwnerAfterFailure(c: Config, log: Log, e: Event, k: Owner, later: real)
    requires e.FailureEvent? && e.at <= later
    ensures var o := OwnerAt(c, log, k, later);
            OwnerAt(c, Then(log, e), k, later)
            == if e.owner != k then o
               else if TripsAt(c, log, k, e.at) then
                 o.(failures := [], suspendedUntil :=
                   if later < e.at + c.suspend as real then Some(e.at + c.suspend as real) else None)
               else if e.at > later - c.failWindow as real then o.(failures := o.failures + [e.at])
               else o
  {
    FailureAdds(c, log, e, k);
    FailureKeepsIssues(log, e, k);
    HistoryFailure(c, FailureTimes(c, log, k), IssueTimes(log, k), LastTrip(c, log, k), e.at, later);
  }

  /** Appending the current instant to a pruned list commutes with later pruning. */
  lemma CleanAfterIssue(c: Config, o: OwnerState, now: real, later: real)
    ensures var cleaned := CleanOwner(c, o, later);
            CleanOwner(c, o.(issuedAt := o.issuedAt + [now]), later)
            == if now > later - c.issueWindow as real
               then cleaned.(issuedAt := cleaned.issuedAt + [now]) else cleaned
  {
    var bound := later - c.issueWindow as real;
    assert After(o.issuedAt + [now], bound) == After(o.issuedAt, bound) + if now > bound then [now] else [] by {
      AfterAppend(o.issuedAt, now, bound);
    }
  }

  lemma CleanAfterFailure(c: Config, o: OwnerState, now: real, later: real)
    requires now <= later
    ensures var cleaned := CleanOwner(c, o, later);
            CleanOwner(c, MarkFailure(c, o, now), later)
            == if Trips(c, o) then
                 cleaned.(failures := [], suspendedUntil :=
                   if later < now + c.suspend as real then Some(now + c.suspend as real) else None)
               else if now > later - c.failWindow as real then
                 cleaned.(failures := cleaned.failures + [now])
               else cleaned
  {
    var bound := later - c.failWindow as real;
    assert After(o.failures + [now], bound) == After(o.failures, bound) + if now > bound then [now] else [] by {
      AfterAppend(o.failures, now, bound);
    }
  }

  lemma IssueSimulates(c: Config, t: Tables, log: Log, now: real, k: Owner, action: string, payload: Payload,
                       id: Id, answer: string)
    requires Simulates(c, t, log, now) && k in t.owners
    ensures var o := t.owners[k];
            Simulates(c,
              WithRecord(WithOwner(t, k, o.(issuedAt := o.issuedAt + [now])), id,
                         NewRecord(c, now, k, action, payload, answer)),
              Then(log, IssueEvent(now, id, k, action, payload, answer)), now)
  {
    var o, r := t.owners[k], NewRecord(c, now, k, action, payload, answer);
    var t' := WithRecord(WithOwner(t, k, o.(issuedAt := o.issuedAt + [now])), id, r);
    var e := IssueEvent(now, id, k, action, payload, answer);
    forall i, later | later >= now
      ensures CleanRecord(c, RecordOf(t', i), later) == RecordAt(c, Then(log, e), i, later)
    {
      assert RecordIn(c, Then(log, e), i) == if i == id then Some(r) else RecordIn(c, log, i);
      assert RecordOf(t', i) == if i == id then Some(r) else RecordOf(t, i);
      assert CleanRecord(c, RecordOf(t, i), later) == RecordAt(c, log, i, later);
    }
    forall j, later | later >= now
      ensures CleanOwner(c, OwnerOf(t', j), later) == OwnerAt(c, Then(log, e), j, later)
    {
      assert CleanOwner(c, OwnerOf(t, j), later) == OwnerAt(c, log, j, later);
      OwnerAfterIssue(c, log, e, j, later);
      CleanAfterIssue(c, o, now, later);
      assert OwnerOf(t', j) == if j == k then o.(issuedAt := o.issuedAt + [now]) else OwnerOf(t, j);
    }
  }

  lemma FinishSimulates(c: Config, t: Tables, log: Log, now: real, id: Id, status: Status)
    requires Simulates(c, t, log, now) && id in t.records && !status.Pending?
    requires t.records[id].status.Pending? && t.records[id].expiresAt > now
    ensures Simulates(c, WithRecord(t, id, t.records[id].Finish(status, now)),
                      Then(log, FinishEvent(now, id, status)), now)
  {
    var r, e := t.records[id], FinishEvent(now, id, status);
    var t' := WithRecord(t, id, r.Finish(status, now));
    assert CleanRecord(c, RecordOf(t, id), now) == RecordAt(c, log, id, now);
    assert RecordIn(c, log, id) == Some(r);
    forall i, later | later >= now
      ensures CleanRecord(c, RecordOf(t', i), later) == RecordAt(c, Then(log, e), i, later)
    {
      assert RecordIn(c, Then(log, e), i) == if i == id then Some(r.Finish(status, now)) else RecordIn(c, log, i);
      assert RecordOf(t', i) == if i == id then Some(r.Finish(status, now)) else RecordOf(t, i);
      assert CleanRecord(c, RecordOf(t, i), later) == RecordAt(c, log, i, later);
    }
    forall j, later | later >= now
      ensures CleanOwner(c, OwnerOf(t', j), later) == OwnerAt(c, Then(log, e), j, later)
    {
      assert OwnerOf(t', j) == OwnerOf(t, j);
      OwnerAfterFinish(c, log, e, j, later);
    }
  }

  lemma FailureSimulates(c: Config, t: Tables, log: Log, now: real, k: Owner)
    requires Simulates(c, t, log, now) && k in t.owners
    requires t.owners[k] == OwnerAt(c, log, k, now)
    ensures Trips(c, t.owners[k]) <==> TripsAt(c, log, k, now)
    ensures Simulates(c, WithOwner(t, k, MarkFailure(c, t.owners[k], now)), Then(log, FailureEvent(now, k)), now)
  {
    var o, e := t.owners[k], FailureEvent(now, k);
    var t' := WithOwner(t, k, MarkFailure(c, o, now));
    assert Trips(c, o) <==> TripsAt(c, log, k, now) by {
      SameTrip(c, o, log, k, now);
    }
    forall i, later | later >= now
      ensures CleanRecord(c, RecordOf(t', i), later) == RecordAt(c, Then(log, e), i, later)
    {
      assert CleanRecord(c, RecordOf(t, i), later) == RecordAt(c, log, i, later);
      RecordFails(c, log, e, i, later);
    }
    forall j, later | later >= now
      ensures CleanOwner(c, OwnerOf(t', j), later) == OwnerAt(c, Then(log, e), j, later)
    {
      assert CleanOwner(c, OwnerOf(t, j), later) == OwnerAt(c, log, j, later);
      OwnerFails(c, t, log, now, k, j, later);
    }
  }

  lemma SameTrip(c: Config, o: OwnerState, log: Log, k: Owner, now: real)
    requires o == OwnerAt(c, log, k, now)
    ensures Trips(c, o) <==> TripsAt(c, log, k, now)
  {
  }

  lemma RecordFails(c: Config, log: Log, e: Event, id: Id, later: real)
    requires e.FailureEvent?
    ensures RecordAt(c, Then(log, e), id, later) == RecordAt(c, log, id, later)
  {
    assert RecordIn(c, Then(log, e), id) == RecordIn(c, log, id);
  }

  lemma OwnerFails(c: Config, t: Tables, log: Log, now: real, k: Owner, j: Owner, later: real)
    requires k in t.owners && now <= later && CleanOwner(c, OwnerOf(t, j), later) == OwnerAt(c, log, j, later)
    requires Trips(c, t.owners[k]) <==> TripsAt(c, log, k, now)
    ensures CleanOwner(c, OwnerOf(WithOwner(t, k, MarkFailure(c, t.owners[k], now)), j), later)
         == OwnerAt(c, Then(log, FailureEvent(now, k)), j, later)
  {
    OwnerAfterFailure(c, log, FailureEvent(now, k), j, later);
    CleanAfterFailure(c, t.owners[k], now, later);
  }
}
