/**
 The two tables of the challenge manager as values, and what each manager operation does to
 them. Owner keys and payloads stand for their digests, which are treated as injective.
 */
module ChallengeTables {
  import opened Basics

  type Id = string
  type Owner = string

  /** Limits and durations in seconds; the configuration loader accepts positive integers only. */
  datatype Limits = Limits(
    expires: int, failLimit: int, failWindow: int, suspend: int, maxPending: int, issueLimit: int,
    issueWindow: int, retention: int, maxTotalPending: int, maxRecords: int)
  {
    predicate Positive() {
      && expires > 0 && failLimit > 0 && failWindow > 0 && suspend > 0 && maxPending > 0
      && issueLimit > 0 && issueWindow > 0 && retention > 0 && maxTotalPending > 0 && maxRecords > 0
    }
  }

  type Config = l: Limits | l.Positive() witness Limits(120, 3, 300, 60, 3, 10, 60, 300, 1000, 10000)

  datatype Status = Pending | Used | Expired | Failed

  /** The payload dictionary: its operation key, and every other field. */
  datatype Payload = Payload(fields: map<string, string>, operationId: Option<string>)

  datatype Record = Record(owner: Owner, action: string, payload: Payload, answer: string,
                           expiresAt: real, status: Status, finishedAt: Option<real>)
  {
    predicate WellFormed() {
      status.Pending? <==> finishedAt.None?
    }

    function Finish(s: Status, at: real): Record {
      this.(status := s, finishedAt := Some(at))
    }

    /** The moment from which retention runs: the finish, or the expiry it will finish at. */
    function Ends(): real {
      if finishedAt.Some? then finishedAt.value else expiresAt
    }
  }

  datatype OwnerState = OwnerState(failures: seq<real>, issuedAt: seq<real>, suspendedUntil: Option<real>)
  {
    predicate Idle() {
      failures == [] && issuedAt == [] && suspendedUntil.None?
    }

    predicate Suspended(now: real) {
      suspendedUntil.Some? && suspendedUntil.value > now
    }
  }

  const NO_HISTORY := OwnerState([], [], None)

  datatype Tables = Tables(records: map<Id, Record>, owners: map<Owner, OwnerState>)

  datatype Code = StorageLimit | GlobalPendingLimit | IssueLimit | PendingLimit

  datatype IssueOutcome =
    | Issued
    | IssueSuspended(retryAfter: int)
    | IssueLimited(code: Code, retryAfter: int)

  datatype VerifyOutcome =
    | Verified
    | UnknownId
    | AlreadyUsed
    | HasExpired
    | ContextMismatch
    | WrongAnswer
    | VerifySuspended(retryAfter: int)
    | VerifyLimited(code: Code, retryAfter: int)

  // ---- Cleanup ----

  function Expire(r: Record, now: real): Record {
    if r.status.Pending? && r.expiresAt <= now then r.Finish(Expired, r.expiresAt) else r
  }

  predicate Retained(c: Config, r: Record, now: real) {
    r.finishedAt.Some? ==> now < r.finishedAt.value + c.retention as real
  }

  /** What a cleanup at `now` leaves of one record. */
  function CleanRecord(c: Config, r: Option<Record>, now: real): Option<Record> {
    if r.Some? && Retained(c, Expire(r.value, now), now) then Some(Expire(r.value, now)) else None
  }

  function CleanRecords(c: Config, records: map<Id, Record>, now: real): map<Id, Record> {
    map id | id in records && Retained(c, Expire(records[id], now), now) :: Expire(records[id], now)
  }

  function CleanOwner(c: Config, o: OwnerState, now: real): OwnerState {
    OwnerState(
      After(o.failures, now - c.failWindow as real),
      After(o.issuedAt, now - c.issueWindow as real),
      if o.suspendedUntil.Some? && o.suspendedUntil.value <= now then None else o.suspendedUntil)
  }

  function PendingIds(records: map<Id, Record>): set<Id> {
    set id | id in records && records[id].status.Pending?
  }

  function PendingIdsOf(records: map<Id, Record>, k: Owner): set<Id> {
    set id | id in records && records[id].owner == k && records[id].status.Pending?
  }

  predicate HasPending(records: map<Id, Record>, k: Owner) {
    exists id :: id in records && records[id].status.Pending? && records[id].owner == k
  }

  function CleanOwners(c: Config, owners: map<Owner, OwnerState>, records: map<Id, Record>, now: real)
    : map<Owner, OwnerState>
  {
    map k | k in owners && (!CleanOwner(c, owners[k], now).Idle() || HasPending(records, k))
      :: CleanOwner(c, owners[k], now)
  }

  function Cleanup(c: Config, t: Tables, now: real): Tables {
    var records := CleanRecords(c, t.records, now);
    Tables(records, CleanOwners(c, t.owners, records, now))
  }

  // ---- Operations ----

  function OwnerOf(t: Tables, k: Owner): OwnerState {
    if k in t.owners then t.owners[k] else NO_HISTORY
  }

  function RecordOf(t: Tables, id: Id): Option<Record> {
    if id in t.records then Some(t.records[id]) else None
  }

  predicate SlotFull(c: Config, t: Tables, k: Owner) {
    k !in t.owners && |t.owners| >= c.maxRecords
  }

  function WithOwner(t: Tables, k: Owner, o: OwnerState): Tables {
    t.(owners := t.owners[k := o])
  }

  function WithRecord(t: Tables, id: Id, r: Record): Tables {
    t.(records := t.records[id := r])
  }

  function Expiries(records: map<Id, Record>, ids: set<Id>): (m: map<Id, real>)
    requires ids <= records.Keys
    ensures m.Keys == ids
  {
    map id | id in ids :: records[id].expiresAt
  }

  /** When retention will let each record go. */
  function Releases(c: Config, records: map<Id, Record>, ids: set<Id>): (m: map<Id, real>)
    requires ids <= records.Keys
    ensures m.Keys == ids
  {
    map id | id in ids :: records[id].Ends() + c.retention as real
  }

  /** The outcome of the admission checks on cleaned tables that hold the owner's state. */
  ghost function AdmitIssue(c: Config, t: Tables, now: real, k: Owner): IssueOutcome
    requires k in t.owners
  {
    var o := t.owners[k];
    if o.Suspended(now) then IssueSuspended(SecondsUntil(o.suspendedUntil.value, now))
    else if |t.records| >= c.maxRecords then
      IssueLimited(StorageLimit, SecondsUntil(Least(Releases(c, t.records, t.records.Keys)), now))
    else if |PendingIds(t.records)| >= c.maxTotalPending then
      IssueLimited(GlobalPendingLimit, SecondsUntil(Least(Expiries(t.records, PendingIds(t.records))), now))
    else if |o.issuedAt| >= c.issueLimit then
      IssueLimited(IssueLimit, SecondsUntil(o.issuedAt[0] + c.issueWindow as real, now))
    else if |PendingIdsOf(t.records, k)| >= c.maxPending then
      IssueLimited(PendingLimit, SecondsUntil(Least(Expiries(t.records, PendingIdsOf(t.records, k))), now))
    else Issued
  }

  function NewRecord(c: Config, now: real, k: Owner, action: string, payload: Payload, answer: string): Record {
    Record(k, action, payload, answer, now + c.expires as real, Pending, None)
  }

  /** Put the challenge on record and the instant on the owner's list. */
  function Register(c: Config, t: Tables, now: real, k: Owner, action: string, payload: Payload,
                    id: Id, answer: string): Tables
    requires k in t.owners
  {
    var o := t.owners[k];
    WithRecord(WithOwner(t, k, o.(issuedAt := o.issuedAt + [now])), id,
               NewRecord(c, now, k, action, payload, answer))
  }

  /** A refused issue still leaves behind the owner slot it allocated. */
  ghost function IssueClean(c: Config, t: Tables, now: real, k: Owner, action: string, payload: Payload,
                            id: Id, answer: string): (Tables, IssueOutcome)
  {
    if SlotFull(c, t, k) then (t, IssueLimited(StorageLimit, c.failWindow))
    else
      var t2 := WithOwner(t, k, OwnerOf(t, k));
      var outcome := AdmitIssue(c, t2, now, k);
      (if outcome.Issued? then Register(c, t2, now, k, action, payload, id, answer) else t2, outcome)
  }

  ghost function Issue(c: Config, t: Tables, now: real, k: Owner, action: string, payload: Payload,
                       id: Id, answer: string): (Tables, IssueOutcome)
  {
    IssueClean(c, Cleanup(c, t, now), now, k, action, payload, id, answer)
  }

  predicate Trips(c: Config, o: OwnerState) {
    |o.failures| + 1 >= c.failLimit
  }

  function MarkFailure(c: Config, o: OwnerState, now: real): OwnerState {
    if Trips(c, o) then o.(failures := [], suspendedUntil := Some(now + c.suspend as real))
    else o.(failures := o.failures + [now])
  }

  /** Count a failure; the one that reaches the limit is reported as a suspension instead. */
  function Fail(c: Config, t: Tables, now: real, k: Owner, outcome: VerifyOutcome): (Tables, VerifyOutcome)
    requires k in t.owners
  {
    var o := t.owners[k];
    (WithOwner(t, k, MarkFailure(c, o, now)), if Trips(c, o) then VerifySuspended(c.suspend) else outcome)
  }

  /** `answer` is the submitted answer in normal form, or None when it is not a number. */
  function Verify(c: Config, t: Tables, now: real, k: Owner, action: string, payload: Payload,
                  id: Id, answer: Option<string>): (Tables, VerifyOutcome)
  {
    var t1 := Cleanup(c, t, now);
    if id in t1.records then Judge(c, t1, now, k, action, payload, id, answer)
    else (NoteUnknown(c, t1, now, k), UnknownId)
  }

  /** An unknown id is counted against the caller if that is possible, and never refused otherwise. */
  function NoteUnknown(c: Config, t: Tables, now: real, k: Owner): Tables {
    if SlotFull(c, t, k) then t
    else
      var t2 := WithOwner(t, k, OwnerOf(t, k));
      if t2.owners[k].Suspended(now) then t2 else Fail(c, t2, now, k, UnknownId).0
  }

  /** Verification against a record of cleaned tables. */
  function Judge(c: Config, t: Tables, now: real, k: Owner, action: string, payload: Payload,
                 id: Id, answer: Option<string>): (Tables, VerifyOutcome)
    requires id in t.records
  {
    var r, o := t.records[id], OwnerOf(t, k);
    if r.owner == k && r.status.Used? then (t, AlreadyUsed)
    else if SlotFull(c, t, k) then (t, VerifyLimited(StorageLimit, c.failWindow))
    else
      var t2 := WithOwner(t, k, o);
      if o.Suspended(now) then (t2, VerifySuspended(SecondsUntil(o.suspendedUntil.value, now)))
      else if r.owner != k then Fail(c, t2, now, k, WrongAnswer)
      else JudgeOwn(c, t2, now, k, action, payload, id, answer)
  }

  /** The caller's own record, with a slot and no suspension in the way. */
  function JudgeOwn(c: Config, t: Tables, now: real, k: Owner, action: string, payload: Payload,
                    id: Id, answer: Option<string>): (Tables, VerifyOutcome)
    requires id in t.records && k in t.owners
  {
    var r := t.records[id];
    if r.action != action || r.payload != payload then
      if r.status.Pending? then Refuse(c, t, now, k, id, ContextMismatch) else Fail(c, t, now, k, ContextMismatch)
    else if r.status.Expired? then (t, HasExpired)
    else if r.status.Failed? then Fail(c, t, now, k, WrongAnswer)
    else if answer != Some(r.answer) then Refuse(c, t, now, k, id, WrongAnswer)
    else (WithRecord(t, id, r.Finish(Used, now)), Verified)
  }

  /** A pending record is finished as failed, and the failure counts against the caller. */
  function Refuse(c: Config, t: Tables, now: real, k: Owner, id: Id, outcome: VerifyOutcome): (Tables, VerifyOutcome)
    requires id in t.records && k in t.owners
  {
    Fail(c, WithRecord(t, id, t.records[id].Finish(Failed, now)), now, k, outcome)
  }

  // ---- Invariant ----

  /** Only finished records carry a finish time, and whoever has a pending record has a slot. */
  ghost predicate WellFormed(t: Tables) {
    && (forall id :: id in t.records ==> t.records[id].WellFormed())
    && forall id :: id in t.records && t.records[id].status.Pending? ==> t.records[id].owner in t.owners
  }

  lemma CleanupWellFormed(c: Config, t: Tables, now: real)
    requires WellFormed(t)
    ensures WellFormed(Cleanup(c, t, now))
  {
  }

  lemma IssueWellFormed(c: Config, t: Tables, now: real, k: Owner, action: string, payload: Payload,
                        id: Id, answer: string)
    requires WellFormed(t)
    ensures WellFormed(Issue(c, t, now, k, action, payload, id, answer).0)
  {
    CleanupWellFormed(c, t, now);
  }

  lemma JudgeWellFormed(c: Config, t: Tables, now: real, k: Owner, action: string, payload: Payload,
                        id: Id, answer: Option<string>)
    requires WellFormed(t) && id in t.records
    ensures WellFormed(Judge(c, t, now, k, action, payload, id, answer).0)
  {
  }

  lemma VerifyWellFormed(c: Config, t: Tables, now: real, k: Owner, action: string, payload: Payload,
                         id: Id, answer: Option<string>)
    requires WellFormed(t)
    ensures WellFormed(Verify(c, t, now, k, action, payload, id, answer).0)
  {
    CleanupWellFormed(c, t, now);
    if id in Cleanup(c, t, now).records {
      JudgeWellFormed(c, Cleanup(c, t, now), now, k, action, payload, id, answer);
    }
  }

  // ---- Lazy cleanup is invisible ----

  lemma FailuresAgain(c: Config, o: OwnerState, early: real, late: real)
    requires early <= late
    ensures CleanOwner(c, CleanOwner(c, o, early), late).failures == CleanOwner(c, o, late).failures
  {
    var a, b := early - c.failWindow as real, late - c.failWindow as real;
    assert a <= b;
    AfterAfter(o.failures, a, b);
  }

  lemma IssuesAgain(c: Config, o: OwnerState, early: real, late: real)
    requires early <= late
    ensures CleanOwner(c, CleanOwner(c, o, early), late).issuedAt == CleanOwner(c, o, late).issuedAt
  {
    var a, b := early - c.issueWindow as real, late - c.issueWindow as real;
    assert a <= b;
    AfterAfter(o.issuedAt, a, b);
  }

  lemma CleanOwnerAgain(c: Config, o: OwnerState, early: real, late: real)
    requires early <= late
    ensures CleanOwner(c, CleanOwner(c, o, early), late) == CleanOwner(c, o, late)
  {
    FailuresAgain(c, o, early, late);
    IssuesAgain(c, o, early, late);
  }

  lemma CleanRecordAgain(c: Config, r: Option<Record>, early: real, late: real)
    requires early <= late && (r.Some? ==> r.value.WellFormed())
    ensures CleanRecord(c, CleanRecord(c, r, early), late) == CleanRecord(c, r, late)
  {
  }

  lemma CleanRecordsLookup(c: Config, t: Tables, id: Id, now: real)
    ensures RecordOf(Cleanup(c, t, now), id) == CleanRecord(c, RecordOf(t, id), now)
  {
  }

  lemma CleanOwnerLookup(c: Config, t: Tables, k: Owner, now: real)
    ensures OwnerOf(Cleanup(c, t, now), k) == CleanOwner(c, OwnerOf(t, k), now)
  {
  }

  lemma CleanRecordsAgain(c: Config, t: Tables, early: real, late: real)
    requires early <= late && WellFormed(t)
    ensures Cleanup(c, Cleanup(c, t, early), late).records == Cleanup(c, t, late).records
  {
    var twice, once := Cleanup(c, Cleanup(c, t, early), late), Cleanup(c, t, late);
    forall id
      ensures RecordOf(twice, id) == RecordOf(once, id)
    {
      CleanRecordsLookup(c, t, id, early);
      CleanRecordsLookup(c, t, id, late);
      CleanRecordsLookup(c, Cleanup(c, t, early), id, late);
      CleanRecordAgain(c, RecordOf(t, id), early, late);
    }
    assert forall id :: id in twice.records <==> RecordOf(twice, id).Some?;
    assert forall id :: id in once.records <==> RecordOf(once, id).Some?;
    assert forall id :: id in twice.records ==> twice.records[id] == RecordOf(twice, id).value;
    assert forall id :: id in once.records ==> once.records[id] == RecordOf(once, id).value;
  }

  /** Whoever has a pending record late had it pending all along. */
  lemma PendingEarlier(c: Config, t: Tables, early: real, late: real, k: Owner)
    requires early <= late && WellFormed(t) && HasPending(Cleanup(c, t, late).records, k)
    ensures HasPending(Cleanup(c, t, early).records, k)
  {
    var records, once := Cleanup(c, t, late).records, Cleanup(c, t, early).records;
    var id :| id in records && records[id].status.Pending? && records[id].owner == k;
    CleanRecordsLookup(c, t, id, early);
    CleanRecordsLookup(c, t, id, late);
    assert id in once && once[id] == t.records[id];
  }

  lemma CleanOwnersAgain(c: Config, owners: map<Owner, OwnerState>, once: map<Id, Record>, records: map<Id, Record>,
                         early: real, late: real)
    requires early <= late && forall k :: HasPending(records, k) ==> HasPending(once, k)
    ensures CleanOwners(c, CleanOwners(c, owners, once, early), records, late) == CleanOwners(c, owners, records, late)
  {
    forall k | k in owners
      ensures CleanOwner(c, CleanOwner(c, owners[k], early), late) == CleanOwner(c, owners[k], late)
    {
      CleanOwnerAgain(c, owners[k], early, late);
    }
  }

  /** A cleanup that ran earlier leaves no trace: the later one gives the same two tables. */
  lemma CleanupAgain(c: Config, t: Tables, early: real, late: real)
    requires early <= late && WellFormed(t)
    ensures Cleanup(c, Cleanup(c, t, early), late) == Cleanup(c, t, late)
  {
    var once, records := Cleanup(c, t, early).records, Cleanup(c, t, late).records;
    CleanRecordsAgain(c, t, early, late);
    forall k | HasPending(records, k) ensures HasPending(once, k) {
      PendingEarlier(c, t, early, late, k);
    }
    CleanOwnersAgain(c, t.owners, once, records, early, late);
  }
}
