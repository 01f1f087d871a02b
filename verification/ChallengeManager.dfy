/** The manager itself: two dictionaries of mutable records, updated in place. */
module ChallengeManager {
  import opened Basics
  import opened ChallengeTables
  import Answers

  class ChallengeRecord {
    const owner: Owner
    const action: string
    const payload: Payload
    const answer: string
    const expiresAt: real
    var status: Status
    var finishedAt: Option<real>

    constructor (owner: Owner, action: string, payload: Payload, answer: string, expiresAt: real)
      ensures View() == Record(owner, action, payload, answer, expiresAt, Pending, None)
    {
      this.owner, this.action, this.payload, this.answer := owner, action, payload, answer;
      this.expiresAt, status, finishedAt := expiresAt, Pending, None;
    }

    function View(): Record
      reads this
    {
      Record(owner, action, payload, answer, expiresAt, status, finishedAt)
    }

    method Finish(s: Status, at: real)
      modifies this
      ensures View() == old(View()).Finish(s, at)
    {
      status, finishedAt := s, Some(at);
    }
  }

  class OwnerEntry {
    var failures: seq<real>
    var issuedAt: seq<real>
    var suspendedUntil: Option<real>

    constructor ()
      ensures View() == NO_HISTORY
    {
      failures, issuedAt, suspendedUntil := [], [], None;
    }

    function View(): OwnerState
      reads this
    {
      OwnerState(failures, issuedAt, suspendedUntil)
    }

    method Clean(c: Config, now: real)
      modifies this
      ensures View() == CleanOwner(c, old(View()), now)
    {
      failures := After(failures, now - c.failWindow as real);
      issuedAt := After(issuedAt, now - c.issueWindow as real);
      if suspendedUntil.Some? && suspendedUntil.value <= now {
        suspendedUntil := None;
      }
    }

    /** Returns true when this failure starts a suspension. */
    method MarkFailure(c: Config, now: real) returns (tripped: bool)
      modifies this
      ensures View() == ChallengeTables.MarkFailure(c, old(View()), now)
      ensures tripped == Trips(c, old(View()))
    {
      failures := failures + [now];
      tripped := |failures| >= c.failLimit;
      if tripped {
        failures := [];
        suspendedUntil := Some(now + c.suspend as real);
      }
    }
  }

  ghost predicate Injective<K, V>(m: map<K, V>) {
    forall i, j :: i in m && j in m && i != j ==> m[i] != m[j]
  }

  ghost predicate Aligned<K, V, S>(all: map<K, V>, before: map<K, S>, after: map<K, S>) {
    before.Keys == after.Keys == all.Keys && Injective(all)
  }

  class Manager {
    const config: Config
    var challenges: map<Id, ChallengeRecord>
    var owners: map<Owner, OwnerEntry>

    constructor (config: Config)
      ensures Valid() && View() == Tables(map[], map[])
    {
      this.config := config;
      challenges, owners := map[], map[];
    }

    /** No two table entries share an object. */
    ghost predicate Valid()
      reads this
    {
      Injective(challenges) && Injective(owners)
    }

    /** The table entries hold exactly these values. */
    ghost predicate Records(m: map<Id, Record>)
      reads this, challenges.Values
    {
      challenges.Keys == m.Keys && forall id :: id in m ==> challenges[id].View() == m[id]
    }

    ghost predicate Owners(m: map<Owner, OwnerState>)
      reads this, owners.Values
    {
      owners.Keys == m.Keys && forall k :: k in m ==> owners[k].View() == m[k]
    }

    ghost function View(): (t: Tables)
      reads this, challenges.Values, owners.Values
      ensures Records(t.records) && Owners(t.owners)
    {
      Tables(map id | id in challenges :: challenges[id].View(), map k | k in owners :: owners[k].View())
    }

    lemma ViewIs(t: Tables)
      requires Records(t.records) && Owners(t.owners)
      ensures View() == t
    {
      assert View().records == t.records && View().owners == t.owners;
    }

    /** Half way through the pass over the records: `todo` are still to be visited. */
    ghost predicate RecordsPass(all: map<Id, ChallengeRecord>, before: map<Id, Record>, after: map<Id, Record>,
                                todo: set<Id>, now: real)
      requires Aligned(all, before, after)
      reads this, all.Values
    {
      && todo <= challenges.Keys <= all.Keys
      && (forall id :: id in challenges ==> challenges[id] == all[id])
      && (forall id :: id in all ==> all[id].View() == if id in todo then before[id] else after[id])
      && forall id :: id in all && id !in todo ==> (id in challenges <==> Retained(config, after[id], now))
    }

    method CleanupRecords(now: real, ghost before: map<Id, Record>)
      requires Valid() && Records(before)
      modifies this`challenges, challenges.Values
      ensures Valid() && Grown(old(challenges), owners)
      ensures Records(CleanRecords(config, before, now))
    {
      ghost var all := challenges;
      ghost var after := map id | id in before :: Expire(before[id], now);
      var todo := challenges.Keys;
      while todo != {}
        invariant RecordsPass(all, before, after, todo, now)
        decreases todo
      {
        var id := Take(todo);
        VisitRecord(id, now, all, before, after, todo);
        todo := todo - {id};
      }
      RecordsDone(all, before, after, now);
    }

    lemma RecordsDone(all: map<Id, ChallengeRecord>, before: map<Id, Record>, after: map<Id, Record>, now: real)
      requires Aligned(all, before, after) && RecordsPass(all, before, after, {}, now)
      requires forall id :: id in before ==> after[id] == Expire(before[id], now)
      ensures Records(CleanRecords(config, before, now))
    {
    }

    method VisitRecord(id: Id, now: real, ghost all: map<Id, ChallengeRecord>, ghost before: map<Id, Record>,
                       ghost after: map<Id, Record>, ghost todo: set<Id>)
      requires Aligned(all, before, after) && RecordsPass(all, before, after, todo, now)
      requires id in todo && after[id] == Expire(before[id], now)
      modifies this`challenges, all[id]
      ensures RecordsPass(all, before, after, todo - {id}, now)
    {
      CleanupRecord(id, now);
      forall i | i in all && i != id ensures all[i].View() == if i in todo then before[i] else after[i] {
        assert all[i] != all[id];
      }
    }

    method CleanupRecord(id: Id, now: real)
      requires id in challenges
      modifies this`challenges, challenges[id]
      ensures var r := Expire(old(challenges[id].View()), now);
              && old(challenges[id]).View() == r
              && challenges == if Retained(config, r, now) then old(challenges) else old(challenges) - {id}
    {
      var record := challenges[id];
      if record.status.Pending? && record.expiresAt <= now {
        record.Finish(Expired, record.expiresAt);
      }
      if record.finishedAt.Some? && now >= record.finishedAt.value + config.retention as real {
        challenges := challenges - {id};
      }
    }

    ghost predicate OwnersPass(all: map<Owner, OwnerEntry>, before: map<Owner, OwnerState>,
                               after: map<Owner, OwnerState>, todo: set<Owner>, pendingOwners: set<Owner>)
      requires Aligned(all, before, after)
      reads this, all.Values
    {
      && todo <= owners.Keys <= all.Keys
      && (forall k :: k in owners ==> owners[k] == all[k])
      && (forall k :: k in all ==> all[k].View() == if k in todo then before[k] else after[k])
      && forall k :: k in all && k !in todo ==> (k in owners <==> !after[k].Idle() || k in pendingOwners)
    }

    method CleanupOwners(now: real, pendingOwners: set<Owner>, ghost before: map<Owner, OwnerState>)
      requires Valid() && Owners(before)
      modifies this`owners, owners.Values
      ensures Valid() && Grown(challenges, old(owners))
      ensures Owners(KeptOwners(config, before, now, pendingOwners))
    {
      ghost var all := owners;
      ghost var after := map k | k in before :: CleanOwner(config, before[k], now);
      var todo := owners.Keys;
      while todo != {}
        invariant OwnersPass(all, before, after, todo, pendingOwners)
        decreases todo
      {
        var k := Take(todo);
        VisitOwner(k, now, pendingOwners, all, before, after, todo);
        todo := todo - {k};
      }
      OwnersDone(all, before, after, now, pendingOwners);
    }

    lemma OwnersDone(all: map<Owner, OwnerEntry>, before: map<Owner, OwnerState>, after: map<Owner, OwnerState>,
                     now: real, pendingOwners: set<Owner>)
      requires Aligned(all, before, after) && OwnersPass(all, before, after, {}, pendingOwners)
      requires forall k :: k in before ==> after[k] == CleanOwner(config, before[k], now)
      ensures Owners(KeptOwners(config, before, now, pendingOwners))
    {
    }

    method VisitOwner(k: Owner, now: real, pendingOwners: set<Owner>, ghost all: map<Owner, OwnerEntry>,
                      ghost before: map<Owner, OwnerState>, ghost after: map<Owner, OwnerState>, ghost todo: set<Owner>)
      requires Aligned(all, before, after) && OwnersPass(all, before, after, todo, pendingOwners)
      requires k in todo && after[k] == CleanOwner(config, before[k], now)
      modifies this`owners, all[k]
      ensures OwnersPass(all, before, after, todo - {k}, pendingOwners)
    {
      CleanupOwner(k, now, k in pendingOwners);
      forall i | i in all && i != k ensures all[i].View() == if i in todo then before[i] else after[i] {
        assert all[i] != all[k];
      }
    }

    method CleanupOwner(k: Owner, now: real, pending: bool)
      requires k in owners
      modifies this`owners, owners[k]
      ensures var o := CleanOwner(config, old(owners[k].View()), now);
              && old(owners[k]).View() == o
              && owners == if !o.Idle() || pending then old(owners) else old(owners) - {k}
    {
      var entry := owners[k];
      entry.Clean(config, now);
      if entry.View().Idle() && !pending {
        owners := owners - {k};
      }
    }

    method Cleanup(now: real)
      requires Valid()
      modifies this, challenges.Values, owners.Values
      ensures Valid() && Grown(old(challenges), old(owners))
      ensures View() == ChallengeTables.Cleanup(config, old(View()), now)
    {
      ghost var t := View();
      ghost var records := CleanRecords(config, t.records, now);
      CleanupRecords(now, t.records);
      assert Owners(t.owners);
      CleanupIdle(now, records, t.owners);
      ViewIs(ChallengeTables.Cleanup(config, t, now));
    }

    method CleanupIdle(now: real, ghost records: map<Id, Record>, ghost before: map<Owner, OwnerState>)
      requires Valid() && Records(records) && Owners(before)
      modifies this`owners, owners.Values
      ensures Valid() && Grown(challenges, old(owners)) && Records(records)
      ensures Owners(CleanOwners(config, before, records, now))
    {
      var pendingOwners := PendingOwners(records);
      CleanupOwners(now, pendingOwners, before);
      assert Owners(CleanOwners(config, before, records, now)) by {
        KeptIsClean(config, before, records, now, pendingOwners);
      }
    }

    function PendingOwners(ghost records: map<Id, Record>): (pending: set<Owner>)
      reads this, challenges.Values
      requires Records(records)
      ensures forall k :: k in pending <==> HasPending(records, k)
    {
      set id | id in challenges && challenges[id].status.Pending? :: challenges[id].owner
    }

    /** Find or allocate the caller's entry; `full` when the owner table has no room for it. */
    method OwnerState(k: Owner) returns (full: bool)
      requires Valid()
      modifies this`owners
      ensures Valid() && full == SlotFull(config, old(View()), k)
      ensures full ==> owners == old(owners)
      ensures !full ==> View() == WithOwner(old(View()), k, OwnerOf(old(View()), k))
      ensures Grown(challenges, old(owners))
    {
      ghost var t := View();
      full := false;
      assert |owners| == |t.owners| by {
        assert owners.Keys == t.owners.Keys;
      }
      if k !in owners {
        if |owners| >= config.maxRecords {
          return true;
        }
        var entry := new OwnerEntry();
        owners := owners[k := entry];
      }
      ViewIs(WithOwner(t, k, OwnerOf(t, k)));
    }

    method CheckSuspension(k: Owner, now: real) returns (wait: Option<int>)
      requires k in owners
      ensures wait == if owners[k].View().Suspended(now)
                      then Some(SecondsUntil(owners[k].suspendedUntil.value, now)) else None
    {
      var until := owners[k].suspendedUntil;
      wait := if until.Some? && until.value > now then Some(SecondsUntil(until.value, now)) else None;
    }

    function LiveIds(ghost t: Tables): (ids: set<Id>)
      requires Records(t.records)
      reads this, challenges.Values
      ensures ids <= challenges.Keys && ids == PendingIds(t.records)
    {
      set id | id in challenges && challenges[id].status.Pending?
    }

    function LiveIdsOf(k: Owner, ghost t: Tables): (ids: set<Id>)
      requires Records(t.records)
      reads this, challenges.Values
      ensures ids <= challenges.Keys && ids == PendingIdsOf(t.records, k)
    {
      set id | id in challenges && challenges[id].owner == k && challenges[id].status.Pending?
    }

    function ExpiriesOf(ids: set<Id>, ghost t: Tables): (m: map<Id, real>)
      requires Records(t.records) && ids <= challenges.Keys
      reads this, challenges.Values
      ensures m.Keys == ids && m == Expiries(t.records, ids)
    {
      map id | id in ids :: challenges[id].expiresAt
    }

    function ReleasesOf(ghost t: Tables): (m: map<Id, real>)
      requires Records(t.records)
      reads this, challenges.Values
      ensures m.Keys == challenges.Keys && m == Releases(config, t.records, t.records.Keys)
    {
      map id | id in challenges ::
        (if challenges[id].finishedAt.Some? then challenges[id].finishedAt.value else challenges[id].expiresAt)
        + config.retention as real
    }

    /** The admission checks, in order; nothing changes. */
    method Admit(now: real, k: Owner, ghost t: Tables) returns (outcome: IssueOutcome)
      requires Records(t.records) && Owners(t.owners) && k in owners
      ensures outcome == AdmitIssue(config, t, now, k)
    {
      var wait := CheckSuspension(k, now);
      var live, mine, issuedAt := LiveIds(t), LiveIdsOf(k, t), owners[k].issuedAt;
      assert |challenges| == |t.records| by {
        assert challenges.Keys == t.records.Keys;
      }
      if wait.Some? {
        outcome := IssueSuspended(wait.value);
      } else if |challenges| >= config.maxRecords {
        var deadline := MinOf(ReleasesOf(t));
        outcome := IssueLimited(StorageLimit, SecondsUntil(deadline, now));
      } else if |live| >= config.maxTotalPending {
        var deadline := MinOf(ExpiriesOf(live, t));
        outcome := IssueLimited(GlobalPendingLimit, SecondsUntil(deadline, now));
      } else if |issuedAt| >= config.issueLimit {
        outcome := IssueLimited(IssueLimit, SecondsUntil(issuedAt[0] + config.issueWindow as real, now));
      } else if |mine| >= config.maxPending {
        var deadline := MinOf(ExpiriesOf(mine, t));
        outcome := IssueLimited(PendingLimit, SecondsUntil(deadline, now));
      } else {
        outcome := Issued;
      }
    }

    method IssueChallenge(now: real, k: Owner, action: string, payload: Payload, id: Id,
                          left: nat, right: nat, operation: Answers.Operation) returns (outcome: IssueOutcome)
      requires Valid() && left > 0 && right > 0
      requires operation.Divide? ==> Answers.QuotientPlaces(left, right) >= 0
      modifies this, challenges.Values, owners.Values
      ensures Valid() && Grown(old(challenges), old(owners))
      ensures (View(), outcome) == Issue(config, old(View()), now, k, action, payload, id,
                                         Answers.Calculate(left, right, operation))
    {
      Cleanup(now);
      outcome := IssueCleaned(now, k, action, payload, id, Answers.Calculate(left, right, operation));
    }

    method IssueCleaned(now: real, k: Owner, action: string, payload: Payload, id: Id, answer: string)
      returns (outcome: IssueOutcome)
      requires Valid()
      modifies this, owners.Values
      ensures Valid() && Grown(old(challenges), old(owners))
      ensures (View(), outcome) == IssueClean(config, old(View()), now, k, action, payload, id, answer)
    {
      ghost var t := View();
      var full := OwnerState(k);
      if full {
        assert View() == t;
        outcome := IssueLimited(StorageLimit, config.failWindow);
      } else {
        outcome := IssueAdmitted(now, k, action, payload, id, answer);
      }
    }

    method IssueAdmitted(now: real, k: Owner, action: string, payload: Payload, id: Id, answer: string)
      returns (outcome: IssueOutcome)
      requires Valid() && k in owners
      modifies this`challenges, owners[k]
      ensures Valid() && Grown(old(challenges), old(owners))
      ensures outcome == AdmitIssue(config, old(View()), now, k)
      ensures View() == if outcome.Issued?
                        then ChallengeTables.Register(config, old(View()), now, k, action, payload, id, answer)
                        else old(View())
    {
      ghost var t := View();
      outcome := Admit(now, k, t);
      if outcome.Issued? {
        Register(now, k, action, payload, id, answer, t);
        ViewIs(ChallengeTables.Register(config, t, now, k, action, payload, id, answer));
      }
    }

    /** Every table entry is the old one under its key, or newly allocated. */
    twostate predicate Grown(records: map<Id, ChallengeRecord>, entries: map<Owner, OwnerEntry>)
      reads this
    {
      && (forall i :: i in challenges ==> (i in records && challenges[i] == records[i]) || fresh(challenges[i]))
      && (forall k :: k in owners ==> (k in entries && owners[k] == entries[k]) || fresh(owners[k]))
    }

    method Stamp(now: real, k: Owner, ghost t: Tables)
      requires Valid() && Records(t.records) && Owners(t.owners) && k in owners
      modifies owners[k]
      ensures var t' := WithOwner(t, k, t.owners[k].(issuedAt := t.owners[k].issuedAt + [now]));
              Records(t'.records) && Owners(t'.owners)
    {
      owners[k].issuedAt := owners[k].issuedAt + [now];
    }

    method Register(now: real, k: Owner, action: string, payload: Payload, id: Id, answer: string, ghost t: Tables)
      requires Valid() && Records(t.records) && Owners(t.owners) && k in owners
      modifies this`challenges, owners[k]
      ensures Valid() && Grown(old(challenges), old(owners))
      ensures var t' := ChallengeTables.Register(config, t, now, k, action, payload, id, answer);
              Records(t'.records) && Owners(t'.owners)
    {
      AddRecord(now, k, action, payload, id, answer, t);
      Stamp(now, k, WithRecord(t, id, NewRecord(config, now, k, action, payload, answer)));
    }

    method AddRecord(now: real, k: Owner, action: string, payload: Payload, id: Id, answer: string, ghost t: Tables)
      requires Valid() && Records(t.records)
      modifies this`challenges
      ensures Valid() && Grown(old(challenges), owners)
      ensures Records(t.records[id := NewRecord(config, now, k, action, payload, answer)])
    {
      var record := new ChallengeRecord(k, action, payload, answer, now + config.expires as real);
      challenges := challenges[id := record];
    }

    // ---- Verification ----

    method Penalize(now: real, k: Owner, reason: VerifyOutcome, ghost t: Tables) returns (outcome: VerifyOutcome)
      requires Valid() && Records(t.records) && Owners(t.owners) && k in owners
      modifies owners[k]
      ensures var (t', o) := Fail(config, t, now, k, reason);
              Records(t'.records) && Owners(t'.owners) && outcome == o
    {
      var tripped := owners[k].MarkFailure(config, now);
      outcome := if tripped then VerifySuspended(config.suspend) else reason;
    }

    method FinishRecord(id: Id, s: Status, now: real, ghost t: Tables)
      requires Valid() && Records(t.records) && Owners(t.owners) && id in challenges
      modifies challenges[id]
      ensures var t' := WithRecord(t, id, t.records[id].Finish(s, now));
              Records(t'.records) && Owners(t'.owners)
    {
      challenges[id].Finish(s, now);
    }

    /** A pending record is finished as failed, and the failure counts against the caller. */
    method Refuse(id: Id, now: real, k: Owner, reason: VerifyOutcome, ghost t: Tables) returns (outcome: VerifyOutcome)
      requires Valid() && Records(t.records) && Owners(t.owners) && k in owners && id in challenges
      modifies owners[k], challenges[id]
      ensures var (t', o) := ChallengeTables.Refuse(config, t, now, k, id, reason);
              Records(t'.records) && Owners(t'.owners) && outcome == o
    {
      FinishRecord(id, Failed, now, t);
      outcome := Penalize(now, k, reason, WithRecord(t, id, t.records[id].Finish(Failed, now)));
    }

    /** The caller's own record, with a slot and no suspension in the way. */
    method JudgeOwn(now: real, k: Owner, action: string, payload: Payload, id: Id, answer: string, ghost t: Tables)
      returns (outcome: VerifyOutcome)
      requires Valid() && Records(t.records) && Owners(t.owners) && k in owners && id in challenges
      requires !t.records[id].status.Used?
      modifies owners[k], challenges[id]
      ensures var (t', o) := ChallengeTables.JudgeOwn(config, t, now, k, action, payload, id, Answers.Normalize(answer));
              Records(t'.records) && Owners(t'.owners) && outcome == o
    {
      var record := challenges[id];
      assert record.View() == t.records[id];
      if record.action != action || record.payload != payload {
        if record.status.Pending? {
          outcome := Refuse(id, now, k, ContextMismatch, t);
        } else {
          outcome := Penalize(now, k, ContextMismatch, t);
        }
      } else if record.status.Expired? {
        outcome := HasExpired;
      } else if record.status.Failed? {
        outcome := Penalize(now, k, WrongAnswer, t);
      } else {
        var normalized := Answers.Normalize(answer);
        if normalized.None? || normalized.value != record.answer {
          outcome := Refuse(id, now, k, WrongAnswer, t);
        } else {
          FinishRecord(id, Used, now, t);
          outcome := Verified;
        }
      }
    }

    method JudgeRecord(now: real, k: Owner, action: string, payload: Payload, id: Id, answer: string)
      returns (outcome: VerifyOutcome)
      requires Valid() && id in challenges
      modifies this`owners, owners.Values, challenges[id]
      ensures Valid() && Grown(challenges, old(owners)) && challenges == old(challenges)
      ensures (View(), outcome) == Judge(config, old(View()), now, k, action, payload, id, Answers.Normalize(answer))
    {
      ghost var t := View();
      var record := challenges[id];
      assert record.View() == t.records[id];
      if record.owner == k && record.status.Used? {
        return AlreadyUsed;
      }
      outcome := JudgeFirst(now, k, action, payload, id, answer, t);
    }

    /** Anything but the caller's own used record. */
    method JudgeFirst(now: real, k: Owner, action: string, payload: Payload, id: Id, answer: string, ghost t: Tables)
      returns (outcome: VerifyOutcome)
      requires Valid() && id in challenges && View() == t
      requires !(t.records[id].owner == k && t.records[id].status.Used?)
      modifies this`owners, owners.Values, challenges[id]
      ensures Valid() && Grown(challenges, old(owners)) && challenges == old(challenges)
      ensures (View(), outcome) == Judge(config, t, now, k, action, payload, id, Answers.Normalize(answer))
    {
      var full := OwnerState(k);
      if full {
        assert View() == t;
        return VerifyLimited(StorageLimit, config.failWindow);
      }
      outcome := JudgeAdmitted(now, k, action, payload, id, answer, t, View());
    }

    method JudgeAdmitted(now: real, k: Owner, action: string, payload: Payload, id: Id, answer: string,
                         ghost t: Tables, ghost t2: Tables)
      returns (outcome: VerifyOutcome)
      requires Valid() && id in challenges && k in owners
      requires View() == t2 == WithOwner(t, k, OwnerOf(t, k)) && !SlotFull(config, t, k)
      requires !(t.records[id].owner == k && t.records[id].status.Used?)
      modifies owners[k], challenges[id]
      ensures (View(), outcome) == Judge(config, t, now, k, action, payload, id, Answers.Normalize(answer))
    {
      var wait := CheckSuspension(k, now);
      assert owners[k].View() == OwnerOf(t, k) && challenges[id].View() == t.records[id];
      if wait.Some? {
        outcome := VerifySuspended(wait.value);
      } else if challenges[id].owner != k {
        outcome := Penalize(now, k, WrongAnswer, t2);
        ViewIs(Fail(config, t2, now, k, WrongAnswer).0);
      } else {
        outcome := JudgeOwn(now, k, action, payload, id, answer, t2);
        ViewIs(ChallengeTables.JudgeOwn(config, t2, now, k, action, payload, id, Answers.Normalize(answer)).0);
      }
    }

    method VerifyChallenge(now: real, k: Owner, action: string, payload: Payload, id: Id, answer: string)
      returns (outcome: VerifyOutcome)
      requires Valid()
      modifies this, challenges.Values, owners.Values
      ensures Valid() && Grown(old(challenges), old(owners))
      ensures (View(), outcome) == Verify(config, old(View()), now, k, action, payload, id, Answers.Normalize(answer))
    {
      Cleanup(now);
      if id in challenges {
        outcome := JudgeRecord(now, k, action, payload, id, answer);
      } else {
        NoteUnknown(now, k);
        outcome := UnknownId;
      }
    }

    method NoteUnknown(now: real, k: Owner)
      requires Valid()
      modifies this`owners, owners.Values
      ensures Valid() && Grown(challenges, old(owners))
      ensures View() == ChallengeTables.NoteUnknown(config, old(View()), now, k)
    {
      ghost var t := View();
      var full := OwnerState(k);
      if full {
        assert View() == t;
        return;
      }
      NoteFailure(now, k, t, View());
    }

    method NoteFailure(now: real, k: Owner, ghost t: Tables, ghost t2: Tables)
      requires Valid() && k in owners && !SlotFull(config, t, k)
      requires View() == t2 == WithOwner(t, k, OwnerOf(t, k))
      modifies owners[k]
      ensures View() == ChallengeTables.NoteUnknown(config, t, now, k)
    {
      var wait := CheckSuspension(k, now);
      assert owners[k].View() == t2.owners[k];
      if wait.None? {
        var _ := Penalize(now, k, UnknownId, t2);
        ViewIs(Fail(config, t2, now, k, UnknownId).0);
      }
    }
  }

  function KeptOwners(c: Config, owners: map<Owner, OwnerState>, now: real, pendingOwners: set<Owner>)
    : map<Owner, OwnerState>
  {
    map k | k in owners && (!CleanOwner(c, owners[k], now).Idle() || k in pendingOwners) :: CleanOwner(c, owners[k], now)
  }

  lemma KeptIsClean(c: Config, owners: map<Owner, OwnerState>, records: map<Id, Record>, now: real,
                    pendingOwners: set<Owner>)
    requires forall k :: k in pendingOwners <==> HasPending(records, k)
    ensures KeptOwners(c, owners, now, pendingOwners) == CleanOwners(c, owners, records, now)
  {
  }
}
