/** Table bounds, and how long a refused caller has to wait. */
module ChallengeLimits {
  import opened Basics
  import opened ChallengeTables
  import opened ChallengeRuns

  // ---- What every reachable pair of tables keeps ----

  /** No table and no count ever exceeds its limit, and issue stamps are sorted and past. */
  ghost predicate Bounded(c: Config, t: Tables, now: real) {
    && WellFormed(t)
    && |t.owners| <= c.maxRecords
    && |t.records| <= c.maxRecords
    && |PendingIds(t.records)| <= c.maxTotalPending
    && (forall k :: |PendingIdsOf(t.records, k)| <= c.maxPending)
    && forall k :: k in t.owners ==> StampsBounded(c, t.owners[k], now)
  }

  ghost predicate StampsBounded(c: Config, o: OwnerState, now: real) {
    |o.issuedAt| <= c.issueLimit && Sorted(o.issuedAt) && AtMost(o.issuedAt, now)
  }

  lemma SubsetSize<T>(a: set<T>, b: set<T>)
    requires a <= b
    ensures |a| <= |b|
    ensures a != b ==> |a| < |b|
  {
    assert b == a + (b - a);
  }

  lemma CleanStamps(c: Config, o: OwnerState, now: real, later: real)
    requires StampsBounded(c, o, now) && now <= later
    ensures StampsBounded(c, CleanOwner(c, o, later), later)
  {
    AfterIsSuffix(o.issuedAt, later - c.issueWindow as real);
  }

  lemma CleanupBounded(c: Config, t: Tables, now: real, later: real)
    requires Bounded(c, t, now) && now <= later
    ensures Bounded(c, Cleanup(c, t, later), later)
  {
    var t1 := Cleanup(c, t, later);
    CleanupWellFormed(c, t, later);
    SubsetSize(t1.owners.Keys, t.owners.Keys);
    SubsetSize(t1.records.Keys, t.records.Keys);
    SubsetSize(PendingIds(t1.records), PendingIds(t.records));
    forall k ensures |PendingIdsOf(t1.records, k)| <= c.maxPending {
      SubsetSize(PendingIdsOf(t1.records, k), PendingIdsOf(t.records, k));
    }
    forall k | k in t1.owners ensures StampsBounded(c, t1.owners[k], later) {
      CleanStamps(c, t.owners[k], now, later);
    }
  }

  lemma SlotBounded(c: Config, t: Tables, now: real, k: Owner)
    requires Bounded(c, t, now) && !SlotFull(c, t, k)
    ensures Bounded(c, WithOwner(t, k, OwnerOf(t, k)), now)
  {
    var t2 := WithOwner(t, k, OwnerOf(t, k));
    if k in t.owners {
      assert t2 == t;
    } else {
      assert t2.owners.Keys == t.owners.Keys + {k};
      assert StampsBounded(c, NO_HISTORY, now);
    }
  }

  /** Adding one record raises each count by at most one. */
  lemma RecordAdds(records: map<Id, Record>, id: Id, r: Record, k: Owner)
    ensures |records[id := r]| <= |records| + 1
    ensures |PendingIds(records[id := r])| <= |PendingIds(records)| + 1
    ensures |PendingIdsOf(records[id := r], k)| <= |PendingIdsOf(records, k)| + 1
    ensures r.owner != k ==> |PendingIdsOf(records[id := r], k)| <= |PendingIdsOf(records, k)|
  {
    var records' := records[id := r];
    assert records'.Keys == records.Keys + {id};
    SubsetSize(PendingIds(records'), PendingIds(records) + {id});
    SubsetSize(PendingIdsOf(records', k), PendingIdsOf(records, k) + {id});
    if r.owner != k {
      SubsetSize(PendingIdsOf(records', k), PendingIdsOf(records, k));
    }
  }

  lemma FinishShrinks(records: map<Id, Record>, id: Id, r: Record, k: Owner)
    requires id in records && !r.status.Pending?
    ensures |records[id := r]| == |records|
    ensures |PendingIds(records[id := r])| <= |PendingIds(records)|
    ensures |PendingIdsOf(records[id := r], k)| <= |PendingIdsOf(records, k)|
  {
    assert records[id := r].Keys == records.Keys;
    SubsetSize(PendingIds(records[id := r]), PendingIds(records));
    SubsetSize(PendingIdsOf(records[id := r], k), PendingIdsOf(records, k));
  }

  lemma StampBounded(c: Config, o: OwnerState, now: real)
    requires StampsBounded(c, o, now) && |o.issuedAt| < c.issueLimit
    ensures StampsBounded(c, o.(issuedAt := o.issuedAt + [now]), now)
  {
  }

  lemma AddBounded(c: Config, t: Tables, now: real, k: Owner, id: Id, r: Record)
    requires Bounded(c, t, now) && k in t.owners && |t.owners[k].issuedAt| < c.issueLimit
    requires r.owner == k && r.WellFormed()
    requires |t.records| < c.maxRecords && |PendingIds(t.records)| < c.maxTotalPending
    requires |PendingIdsOf(t.records, k)| < c.maxPending
    ensures var o := t.owners[k];
            Bounded(c, WithRecord(WithOwner(t, k, o.(issuedAt := o.issuedAt + [now])), id, r), now)
  {
    var o := t.owners[k];
    var t' := WithRecord(WithOwner(t, k, o.(issuedAt := o.issuedAt + [now])), id, r);
    assert t'.owners.Keys == t.owners.Keys;
    RecordAdds(t.records, id, r, k);
    forall j ensures |PendingIdsOf(t'.records, j)| <= c.maxPending {
      RecordAdds(t.records, id, r, j);
    }
    StampBounded(c, o, now);
  }

  lemma IssueBounded(c: Config, t: Tables, from: real, now: real, k: Owner, action: string, payload: Payload,
                     id: Id, answer: string)
    requires Bounded(c, t, from) && from <= now
    ensures Bounded(c, Issue(c, t, now, k, action, payload, id, answer).0, now)
  {
    CleanupBounded(c, t, from, now);
    IssueCleanBounded(c, Cleanup(c, t, now), now, k, action, payload, id, answer);
  }

  lemma IssueCleanBounded(c: Config, t: Tables, now: real, k: Owner, action: string, payload: Payload,
                          id: Id, answer: string)
    requires Bounded(c, t, now)
    ensures Bounded(c, IssueClean(c, t, now, k, action, payload, id, answer).0, now)
  {
    if !SlotFull(c, t, k) {
      var t2 := WithOwner(t, k, OwnerOf(t, k));
      SlotBounded(c, t, now, k);
      if AdmitIssue(c, t2, now, k).Issued? {
        AddBounded(c, t2, now, k, id, NewRecord(c, now, k, action, payload, answer));
      }
    }
  }

  lemma FailBounded(c: Config, t: Tables, now: real, k: Owner, outcome: VerifyOutcome)
    requires Bounded(c, t, now) && k in t.owners
    ensures Bounded(c, Fail(c, t, now, k, outcome).0, now)
  {
    assert Fail(c, t, now, k, outcome).0.owners.Keys == t.owners.Keys;
  }

  lemma FinishBounded(c: Config, t: Tables, now: real, id: Id, r: Record)
    requires Bounded(c, t, now) && id in t.records && !r.status.Pending? && r.WellFormed()
    ensures Bounded(c, WithRecord(t, id, r), now)
  {
    var t' := WithRecord(t, id, r);
    FinishShrinks(t.records, id, r, r.owner);
    forall k ensures |PendingIdsOf(t'.records, k)| <= c.maxPending {
      FinishShrinks(t.records, id, r, k);
    }
  }

  lemma RefuseBounded(c: Config, t: Tables, now: real, k: Owner, id: Id, outcome: VerifyOutcome)
    requires Bounded(c, t, now) && id in t.records && k in t.owners
    ensures Bounded(c, Refuse(c, t, now, k, id, outcome).0, now)
  {
    var failed := t.records[id].Finish(Failed, now);
    FinishBounded(c, t, now, id, failed);
    FailBounded(c, WithRecord(t, id, failed), now, k, outcome);
  }

  lemma JudgeOwnBounded(c: Config, t: Tables, now: real, k: Owner, action: string, payload: Payload,
                        id: Id, answer: Option<string>)
    requires Bounded(c, t, now) && id in t.records && k in t.owners
    ensures Bounded(c, JudgeOwn(c, t, now, k, action, payload, id, answer).0, now)
  {
    FailBounded(c, t, now, k, ContextMismatch);
    FailBounded(c, t, now, k, WrongAnswer);
    RefuseBounded(c, t, now, k, id, ContextMismatch);
    RefuseBounded(c, t, now, k, id, WrongAnswer);
    FinishBounded(c, t, now, id, t.records[id].Finish(Used, now));
  }

  lemma JudgeBounded(c: Config, t: Tables, now: real, k: Owner, action: string, payload: Payload,
                     id: Id, answer: Option<string>)
    requires Bounded(c, t, now) && id in t.records
    ensures Bounded(c, Judge(c, t, now, k, action, payload, id, answer).0, now)
  {
    if !SlotFull(c, t, k) {
      var t2 := WithOwner(t, k, OwnerOf(t, k));
      SlotBounded(c, t, now, k);
      FailBounded(c, t2, now, k, WrongAnswer);
      JudgeOwnBounded(c, t2, now, k, action, payload, id, answer);
    }
  }

  lemma VerifyBounded(c: Config, t: Tables, from: real, now: real, k: Owner, action: string, payload: Payload,
                      id: Id, answer: Option<string>)
    requires Bounded(c, t, from) && from <= now
    ensures Bounded(c, Verify(c, t, now, k, action, payload, id, answer).0, now)
  {
    var t1 := Cleanup(c, t, now);
    CleanupBounded(c, t, from, now);
    if id in t1.records {
      JudgeBounded(c, t1, now, k, action, payload, id, answer);
    } else if !SlotFull(c, t1, k) {
      SlotBounded(c, t1, now, k);
      FailBounded(c, WithOwner(t1, k, OwnerOf(t1, k)), now, k, UnknownId);
    }
  }

  lemma BoundedLater(c: Config, t: Tables, now: real, later: real)
    requires Bounded(c, t, now) && now <= later
    ensures Bounded(c, t, later)
  {
  }

  /** Every run stays within every limit of the configuration. */
  lemma {:induction false} RunBounded(c: Config, ops: seq<Op>, now: real)
    requires Timely(ops) && forall i :: 0 <= i < |ops| ==> ops[i].now <= now
    ensures Bounded(c, Run(c, ops).0, now)
  {
    if ops == [] {
      assert PendingIds(map[]) == {} && forall k :: PendingIdsOf(map[], k) == {};
    } else {
      var front, op := ops[..|ops| - 1], ops[|ops| - 1];
      RunBounded(c, front, op.now);
      var t := Run(c, front).0;
      match op {
        case IssueOp(at, k, action, payload, id, answer) =>
          IssueBounded(c, t, at, at, k, action, payload, id, answer);
        case VerifyOp(at, k, action, payload, id, submitted) =>
          VerifyBounded(c, t, at, at, k, action, payload, id, submitted);
      }
      BoundedLater(c, Run(c, ops).0, op.now, now);
    }
  }

  // ---- Waiting ----

  /** The instant at which the limit that refused `k` stops refusing, on the tables left behind. */
  ghost function Deadline(c: Config, t: Tables, k: Owner, refusal: IssueOutcome): real
    requires k in t.owners
  {
    var o := t.owners[k];
    match refusal
    case IssueSuspended(_) => if o.suspendedUntil.Some? then o.suspendedUntil.value else 0.0
    case IssueLimited(StorageLimit, _) =>
      if t.records.Keys != {} then Least(Releases(c, t.records, t.records.Keys)) else 0.0
    case IssueLimited(GlobalPendingLimit, _) =>
      if PendingIds(t.records) != {} then Least(Expiries(t.records, PendingIds(t.records))) else 0.0
    case IssueLimited(IssueLimit, _) =>
      if o.issuedAt != [] then o.issuedAt[0] + c.issueWindow as real else 0.0
    case IssueLimited(PendingLimit, _) =>
      if PendingIdsOf(t.records, k) != {} then Least(Expiries(t.records, PendingIdsOf(t.records, k))) else 0.0
    case Issued => 0.0
  }

  /** Two refusals by the same limit. */
  predicate SameLimit(a: IssueOutcome, b: IssueOutcome) {
    || (a.IssueSuspended? && b.IssueSuspended?)
    || (a.IssueLimited? && b.IssueLimited? && a.code == b.code)
  }

  /** Nothing is overdue, as right after a cleanup. */
  ghost predicate Cleaned(c: Config, t: Tables, now: real) {
    && (forall id :: id in t.records ==>
          && Expire(t.records[id], now) == t.records[id]
          && Retained(c, t.records[id], now))
    && forall k :: k in t.owners ==>
         && (forall i :: 0 <= i < |t.owners[k].issuedAt| ==> t.owners[k].issuedAt[i] > now - c.issueWindow as real)
         && (t.owners[k].suspendedUntil.Some? ==> t.owners[k].suspendedUntil.value > now)
  }

  lemma CleanupCleans(c: Config, t: Tables, now: real)
    requires WellFormed(t)
    ensures Cleaned(c, Cleanup(c, t, now), now)
  {
  }

  /** A record is kept until its end plus retention, whether or not it has finished yet. */
  lemma KeptUntil(c: Config, r: Record, later: real)
    requires r.WellFormed()
    ensures Retained(c, Expire(r, later), later) <==> later < r.Ends() + c.retention as real
  {
  }

  lemma StorageRoom(c: Config, t: Tables, now: real, later: real)
    requires Bounded(c, t, now) && now <= later && t.records.Keys != {}
    ensures var kept := Cleanup(c, t, later).records;
            && |kept| <= |t.records|
            && (|kept| == |t.records| <==> later < Least(Releases(c, t.records, t.records.Keys)))
  {
    var kept := Cleanup(c, t, later).records;
    SubsetSize(kept.Keys, t.records.Keys);
    forall id | id in t.records
      ensures id in kept <==> later < Releases(c, t.records, t.records.Keys)[id]
    {
      KeptUntil(c, t.records[id], later);
    }
    assert kept.Keys == t.records.Keys <==> later < Least(Releases(c, t.records, t.records.Keys));
  }

  /** The same for pending records, all of them or one owner's. */
  lemma PendingRoom(c: Config, t: Tables, now: real, later: real, ids: set<Id>, ids': set<Id>)
    requires Bounded(c, t, now) && now <= later && ids != {} && ids <= PendingIds(t.records)
    requires ids' == set id | id in ids && id in PendingIds(Cleanup(c, t, later).records)
    ensures |ids'| <= |ids|
    ensures |ids'| == |ids| <==> later < Least(Expiries(t.records, ids))
  {
    var kept := Cleanup(c, t, later).records;
    SubsetSize(ids', ids);
    forall id | id in ids
      ensures id in ids' <==> later < Expiries(t.records, ids)[id]
    {
      assert t.records[id].status.Pending?;
    }
    assert ids' == ids <==> later < Least(Expiries(t.records, ids));
  }

  lemma IssueRoom(c: Config, o: OwnerState, now: real, later: real)
    requires StampsBounded(c, o, now) && now <= later && o.issuedAt != []
    ensures var kept := CleanOwner(c, o, later).issuedAt;
            && |kept| <= |o.issuedAt|
            && (|kept| == |o.issuedAt| <==> later < o.issuedAt[0] + c.issueWindow as real)
  {
    AfterIsSuffix(o.issuedAt, later - c.issueWindow as real);
  }

  /** After a wait with no other calls, the caller still gets a slot. */
  lemma SlotStays(c: Config, t: Tables, now: real, later: real, k: Owner)
    requires Bounded(c, t, now) && now <= later && k in t.owners
    ensures !SlotFull(c, Cleanup(c, t, later), k)
  {
    SubsetSize(Cleanup(c, t, later).owners.Keys, t.owners.Keys);
  }

  /** What the admission checks see after a wait, against the tables left behind at the refusal. */
  lemma WaitedTables(c: Config, t: Tables, now: real, later: real, k: Owner)
    requires Bounded(c, t, now) && now <= later && k in t.owners
    ensures var t1 := Cleanup(c, t, later);
            var t2 := WithOwner(t1, k, OwnerOf(t1, k));
            && t2.records == t1.records
            && t2.owners[k] == CleanOwner(c, t.owners[k], later)
            && PendingIds(t1.records) == (set id | id in PendingIds(t.records) && id in PendingIds(t1.records))
            && PendingIdsOf(t1.records, k)
               == (set id | id in PendingIdsOf(t.records, k) && id in PendingIds(t1.records))
  {
    CleanOwnerLookup(c, t, k, later);
  }

  /** The counts after the wait, limit by limit: unchanged before its deadline, smaller from then on. */
  lemma WaitedCounts(c: Config, t: Tables, now: real, later: real, k: Owner)
    requires Bounded(c, t, now) && now <= later && k in t.owners
    ensures var t1 := Cleanup(c, t, later);
            var o, o' := t.owners[k], CleanOwner(c, t.owners[k], later);
            && |t1.records| <= |t.records|
            && |PendingIds(t1.records)| <= |PendingIds(t.records)|
            && |o'.issuedAt| <= |o.issuedAt|
            && |PendingIdsOf(t1.records, k)| <= |PendingIdsOf(t.records, k)|
            && (t.records.Keys != {} ==>
                  (|t1.records| == |t.records| <==> later < Least(Releases(c, t.records, t.records.Keys))))
            && (PendingIds(t.records) != {} ==>
                  (|PendingIds(t1.records)| == |PendingIds(t.records)|
                   <==> later < Least(Expiries(t.records, PendingIds(t.records)))))
            && (o.issuedAt != [] ==>
                  (|o'.issuedAt| == |o.issuedAt| <==> later < o.issuedAt[0] + c.issueWindow as real))
            && (PendingIdsOf(t.records, k) != {} ==>
                  (|PendingIdsOf(t1.records, k)| == |PendingIdsOf(t.records, k)|
                   <==> later < Least(Expiries(t.records, PendingIdsOf(t.records, k)))))
  {
    var t1 := Cleanup(c, t, later);
    WaitedTables(c, t, now, later, k);
    if t.records.Keys != {} {
      StorageRoom(c, t, now, later);
    }
    if PendingIds(t.records) != {} {
      PendingRoom(c, t, now, later, PendingIds(t.records), PendingIds(t1.records));
    }
    if t.owners[k].issuedAt != [] {
      IssueRoom(c, t.owners[k], now, later);
    }
    if PendingIdsOf(t.records, k) != {} {
      PendingRoom(c, t, now, later, PendingIdsOf(t.records, k), PendingIdsOf(t1.records, k));
    }
  }

  lemma DeadlineAhead(c: Config, t: Tables, now: real, k: Owner)
    requires Bounded(c, t, now) && Cleaned(c, t, now) && k in t.owners
    requires !AdmitIssue(c, t, now, k).Issued?
    ensures Deadline(c, t, k, AdmitIssue(c, t, now, k)) > now
    ensures AdmitIssue(c, t, now, k).retryAfter == SecondsUntil(Deadline(c, t, k, AdmitIssue(c, t, now, k)), now)
  {
    forall id | id in t.records
      ensures t.records[id].Ends() + c.retention as real > now
      ensures t.records[id].status.Pending? ==> t.records[id].expiresAt > now
    {
      KeptUntil(c, t.records[id], now);
    }
  }

  /** Which limit refuses, from the bare counts, in the order the checks are made. */
  predicate Refuses(c: Config, o: OwnerState, now: real, stored: nat, live: nat, mine: nat, a: IssueOutcome) {
    var room := !o.Suspended(now) && stored < c.maxRecords;
    match a
    case Issued => room && live < c.maxTotalPending && |o.issuedAt| < c.issueLimit && mine < c.maxPending
    case IssueSuspended(_) => o.Suspended(now)
    case IssueLimited(StorageLimit, _) => !o.Suspended(now) && stored >= c.maxRecords
    case IssueLimited(GlobalPendingLimit, _) => room && live >= c.maxTotalPending
    case IssueLimited(IssueLimit, _) => room && live < c.maxTotalPending && |o.issuedAt| >= c.issueLimit
    case IssueLimited(PendingLimit, _) =>
      room && live < c.maxTotalPending && |o.issuedAt| < c.issueLimit && mine >= c.maxPending
  }

  lemma AdmitRefuses(c: Config, t: Tables, now: real, k: Owner, a: IssueOutcome)
    requires k in t.owners && !a.Issued?
    ensures SameLimit(a, AdmitIssue(c, t, now, k)) <==>
            Refuses(c, t.owners[k], now, |t.records|, |PendingIds(t.records)|, |PendingIdsOf(t.records, k)|, a)
  {
  }

  lemma RefusesAfterWait(c: Config, t: Tables, now: real, later: real, k: Owner)
    requires Bounded(c, t, now) && Cleaned(c, t, now) && now <= later && k in t.owners
    requires !AdmitIssue(c, t, now, k).Issued?
    ensures var t1, refusal := Cleanup(c, t, later), AdmitIssue(c, t, now, k);
            var stored, live, mine := |t1.records|, |PendingIds(t1.records)|, |PendingIdsOf(t1.records, k)|;
            Refuses(c, CleanOwner(c, t.owners[k], later), later, stored, live, mine, refusal)
            <==> later < Deadline(c, t, k, refusal)
  {
    var t1, refusal, o := Cleanup(c, t, later), AdmitIssue(c, t, now, k), t.owners[k];
    AdmitRefuses(c, t, now, k, refusal);
    WaitIs(c, t, now, later, k, refusal);
    RefusesLater(c, o, CleanOwner(c, o, later), now, later,
                 |t.records|, |PendingIds(t.records)|, |PendingIdsOf(t.records, k)|,
                 |t1.records|, |PendingIds(t1.records)|, |PendingIdsOf(t1.records, k)|,
                 refusal, Deadline(c, t, k, refusal));
  }

  lemma WaitIs(c: Config, t: Tables, now: real, later: real, k: Owner, a: IssueOutcome)
    requires Bounded(c, t, now) && now <= later && k in t.owners
    ensures var t1 := Cleanup(c, t, later);
            Waited(t.owners[k], CleanOwner(c, t.owners[k], later), later,
                   |t.records|, |PendingIds(t.records)|, |PendingIdsOf(t.records, k)|,
                   |t1.records|, |PendingIds(t1.records)|, |PendingIdsOf(t1.records, k)|, a, Deadline(c, t, k, a))
  {
    WaitedCounts(c, t, now, later, k);
  }

  /** The counts before and after a wait; the one that refused shrinks exactly at its deadline. */
  predicate Waited(o: OwnerState, o': OwnerState, later: real, stored: nat, live: nat, mine: nat,
                   stored': nat, live': nat, mine': nat, a: IssueOutcome, d: real)
  {
    && stored' <= stored && live' <= live && mine' <= mine && |o'.issuedAt| <= |o.issuedAt|
    && (o'.Suspended(later) ==> o.Suspended(later)) && (o.Suspended(later) ==> o'.Suspended(later))
    && (a.IssueSuspended? && o.suspendedUntil.Some? ==> d == o.suspendedUntil.value)
    && match a
       case IssueLimited(StorageLimit, _) => stored > 0 ==> (stored' == stored <==> later < d)
       case IssueLimited(GlobalPendingLimit, _) => live > 0 ==> (live' == live <==> later < d)
       case IssueLimited(IssueLimit, _) => o.issuedAt != [] ==> (|o'.issuedAt| == |o.issuedAt| <==> later < d)
       case IssueLimited(PendingLimit, _) => mine > 0 ==> (mine' == mine <==> later < d)
       case _ => true
  }

  lemma RefusesLater(c: Config, o: OwnerState, o': OwnerState, now: real, later: real, stored: nat, live: nat, mine: nat,
                     stored': nat, live': nat, mine': nat, a: IssueOutcome, d: real)
    requires now <= later && !a.Issued? && Refuses(c, o, now, stored, live, mine, a)
    requires stored <= c.maxRecords && live <= c.maxTotalPending && mine <= c.maxPending
    requires |o.issuedAt| <= c.issueLimit && Waited(o, o', later, stored, live, mine, stored', live', mine', a, d)
    ensures Refuses(c, o', later, stored', live', mine', a) <==> later < d
  {
  }

  lemma AdmitAfterWait(c: Config, t: Tables, now: real, later: real, k: Owner)
    requires Bounded(c, t, now) && Cleaned(c, t, now) && now <= later && k in t.owners
    requires !AdmitIssue(c, t, now, k).Issued?
    ensures var t1 := Cleanup(c, t, later);
            var t2 := WithOwner(t1, k, OwnerOf(t1, k));
            var refusal := AdmitIssue(c, t, now, k);
            SameLimit(refusal, AdmitIssue(c, t2, later, k)) <==> later < Deadline(c, t, k, refusal)
  {
    var t1 := Cleanup(c, t, later);
    var t2 := WithOwner(t1, k, OwnerOf(t1, k));
    var refusal := AdmitIssue(c, t, now, k);
    RefusesAfterWait(c, t, now, later, k);
    AdmitRefuses(c, t2, later, k, refusal);
    WaitedTables(c, t, now, later, k);
  }

  /**
   `retry_after` is sound and tight. The limit that refuses an issue has a deadline after now;
   with no other calls it keeps refusing strictly before the deadline and never from it on; and
   the delay reported is that wait in whole seconds. A full owner table, which reports a fixed
   delay instead, is excluded.
   */
  lemma RetryAfter(c: Config, t: Tables, from: real, now: real, later: real, k: Owner,
                   action: string, payload: Payload, id: Id, answer: string)
    requires Bounded(c, t, from) && from <= now <= later
    requires !SlotFull(c, Cleanup(c, t, now), k)
    requires !Issue(c, t, now, k, action, payload, id, answer).1.Issued?
    ensures var (t', refusal) := Issue(c, t, now, k, action, payload, id, answer);
            && k in t'.owners
            && Deadline(c, t', k, refusal) > now
            && refusal.retryAfter == SecondsUntil(Deadline(c, t', k, refusal), now)
            && (SameLimit(refusal, Issue(c, t', later, k, action, payload, id, answer).1)
                <==> later < Deadline(c, t', k, refusal))
  {
    var t1 := Cleanup(c, t, now);
    CleanupBounded(c, t, from, now);
    CleanupCleans(c, t, now);
    SlotBounded(c, t1, now, k);
    var t2 := WithOwner(t1, k, OwnerOf(t1, k));
    DeadlineAhead(c, t2, now, k);
    SlotStays(c, t2, now, later, k);
    AdmitAfterWait(c, t2, now, later, k);
  }

  /** In particular, whoever waits the reported number of seconds is not refused by it again. */
  lemma RetryAfterSuffices(c: Config, t: Tables, from: real, now: real, later: real, k: Owner,
                           action: string, payload: Payload, id: Id, answer: string)
    requires Bounded(c, t, from) && from <= now
    requires !SlotFull(c, Cleanup(c, t, now), k)
    requires !Issue(c, t, now, k, action, payload, id, answer).1.Issued?
    requires later >= now + Issue(c, t, now, k, action, payload, id, answer).1.retryAfter as real
    ensures var (t', refusal) := Issue(c, t, now, k, action, payload, id, answer);
            !SameLimit(refusal, Issue(c, t', later, k, action, payload, id, answer).1)
  {
    var (t', refusal) := Issue(c, t, now, k, action, payload, id, answer);
    RetryAfter(c, t, from, now, now, k, action, payload, id, answer);
    RetryAfter(c, t, from, now, later, k, action, payload, id, answer);
  }
}
