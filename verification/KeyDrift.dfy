/** A chain of replacements along which the idempotency key does change. */
module KeyDrift {
  import opened Basics
  import opened ChallengeTables
  import opened ChallengeFlow
  import ChallengeLimits

  predicate Generous(c: Config) {
    c.failLimit >= 3 && c.maxPending >= 3 && c.issueLimit >= 3 && c.maxTotalPending >= 3 && c.maxRecords >= 3
  }

  ghost predicate AllZero(s: seq<real>) {
    forall i :: 0 <= i < |s| ==> s[i] == 0.0
  }

  /** Tables of `k` alone, at time zero: at most `issued` records and issuances, `failed` failures, and
      no suspension. */
  ghost predicate Calm(c: Config, t: Tables, k: Owner, issued: nat, failed: nat) {
    && (forall id :: id in t.records ==> RecordCalm(t.records[id]))
    && t.owners.Keys <= {k} && |t.records| <= issued
    && var o := OwnerOf(t, k);
    && AllZero(o.failures) && AllZero(o.issuedAt) && o.suspendedUntil.None?
    && |o.failures| <= failed && |o.issuedAt| <= issued && (k in t.owners ==> o.issuedAt != [])
  }

  predicate RecordCalm(r: Record) {
    if r.status.Pending? then r.finishedAt.None? && r.expiresAt > 0.0 else r.finishedAt == Some(0.0)
  }

  lemma {:induction false} AfterZero(s: seq<real>, from: real)
    requires AllZero(s) && from < 0.0
    ensures After(s, from) == s
  {
    if s != [] {
      AfterZero(s[..|s| - 1], from);
    }
  }

  lemma CalmOwner(c: Config, o: OwnerState)
    requires AllZero(o.failures) && AllZero(o.issuedAt) && (o.suspendedUntil.Some? ==> o.suspendedUntil.value > 0.0)
    ensures CleanOwner(c, o, 0.0) == o
  {
    AfterZero(o.failures, 0.0 - c.failWindow as real);
    AfterZero(o.issuedAt, 0.0 - c.issueWindow as real);
  }

  lemma CalmRecords(c: Config, records: map<Id, Record>)
    requires forall id :: id in records ==> RecordCalm(records[id])
    ensures CleanRecords(c, records, 0.0) == records
  {
    forall id | id in records ensures Retained(c, Expire(records[id], 0.0), 0.0) && Expire(records[id], 0.0) == records[id] {
      assert RecordCalm(records[id]);
    }
  }

  lemma CalmOwners(c: Config, t: Tables, k: Owner)
    requires t.owners.Keys <= {k}
    requires k in t.owners ==> CleanOwner(c, t.owners[k], 0.0) == t.owners[k] && !t.owners[k].Idle()
    ensures CleanOwners(c, t.owners, t.records, 0.0) == t.owners
  {
    forall i | i in t.owners ensures i == k {
      assert i in t.owners.Keys;
    }
  }

  lemma CalmCleanup(c: Config, t: Tables, k: Owner, issued: nat, failed: nat)
    requires Calm(c, t, k, issued, failed)
    ensures Cleanup(c, t, 0.0) == t
  {
    CalmRecords(c, t.records);
    if k in t.owners {
      CalmOwner(c, t.owners[k]);
    }
    CalmOwners(c, t, k);
  }

  lemma CalmAdmits(c: Config, t: Tables, k: Owner, issued: nat, failed: nat)
    requires Generous(c) && Calm(c, t, k, issued, failed) && issued < 3
    ensures !SlotFull(c, t, k) && AdmitIssue(c, WithOwner(t, k, OwnerOf(t, k)), 0.0, k).Issued?
  {
    assert k !in t.owners ==> t.owners == map[];
    assert |t.records.Keys| == |t.records|;
    ChallengeLimits.SubsetSize(PendingIds(t.records), t.records.Keys);
    ChallengeLimits.SubsetSize(PendingIdsOf(t.records, k), t.records.Keys);
  }

  lemma CalmIssue(c: Config, t: Tables, k: Owner, issued: nat, failed: nat, action: string, payload: Payload,
                  id: Id, answer: string)
    requires Generous(c) && Calm(c, t, k, issued, failed) && issued < 3
    ensures var (t', outcome) := Issue(c, t, 0.0, k, action, payload, id, answer);
            && outcome.Issued? && t'.records == t.records[id := NewRecord(c, 0.0, k, action, payload, answer)]
            && k in t'.owners && Calm(c, t', k, issued + 1, failed)
  {
    CalmCleanup(c, t, k, issued, failed);
    CalmAdmits(c, t, k, issued, failed);
    RegisterCalm(c, t, k, issued, failed, action, payload, id, answer);
  }

  lemma RegisterCalm(c: Config, t: Tables, k: Owner, issued: nat, failed: nat, action: string, payload: Payload,
                     id: Id, answer: string)
    requires Calm(c, t, k, issued, failed)
    ensures var t' := Register(c, WithOwner(t, k, OwnerOf(t, k)), 0.0, k, action, payload, id, answer);
            && t'.records == t.records[id := NewRecord(c, 0.0, k, action, payload, answer)]
            && k in t'.owners && Calm(c, t', k, issued + 1, failed)
  {
    var t' := Register(c, WithOwner(t, k, OwnerOf(t, k)), 0.0, k, action, payload, id, answer);
    assert |t'.records| <= |t.records| + 1;
    assert OwnerOf(t', k).issuedAt == OwnerOf(t, k).issuedAt + [0.0];
  }

  /** A wrong answer, or an answer in another context, to the owner's own pending challenge. */
  lemma CalmRefusal(c: Config, t: Tables, k: Owner, issued: nat, failed: nat, action: string, payload: Payload,
                    id: Id, answer: Option<string>)
    requires Generous(c) && Calm(c, t, k, issued, failed) && failed < 2 && k in t.owners
    requires id in t.records && t.records[id].owner == k && t.records[id].status.Pending?
    requires t.records[id].action == action && (t.records[id].payload == payload ==> answer != Some(t.records[id].answer))
    ensures var (t', outcome) := Verify(c, t, 0.0, k, action, payload, id, answer);
            && outcome == (if t.records[id].payload == payload then WrongAnswer else ContextMismatch)
            && Calm(c, t', k, issued, failed + 1)
  {
    CalmCleanup(c, t, k, issued, failed);
    JudgeRefuses(c, t, k, action, payload, id, answer);
    RefusalCalm(c, t, k, issued, failed, id, if t.records[id].payload == payload then WrongAnswer else ContextMismatch);
  }

  lemma JudgeRefuses(c: Config, t: Tables, k: Owner, action: string, payload: Payload, id: Id, answer: Option<string>)
    requires k in t.owners && t.owners[k].suspendedUntil.None?
    requires id in t.records && t.records[id].owner == k && t.records[id].status.Pending?
    requires t.records[id].action == action && (t.records[id].payload == payload ==> answer != Some(t.records[id].answer))
    ensures Judge(c, t, 0.0, k, action, payload, id, answer)
         == Refuse(c, t, 0.0, k, id, if t.records[id].payload == payload then WrongAnswer else ContextMismatch)
  {
    assert WithOwner(t, k, t.owners[k]) == t;
  }

  lemma RefusalCalm(c: Config, t: Tables, k: Owner, issued: nat, failed: nat, id: Id, outcome: VerifyOutcome)
    requires Generous(c) && Calm(c, t, k, issued, failed) && failed < 2 && k in t.owners && id in t.records
    ensures Refuse(c, t, 0.0, k, id, outcome).1 == outcome
    ensures Calm(c, Refuse(c, t, 0.0, k, id, outcome).0, k, issued, failed + 1)
  {
    var t' := Refuse(c, t, 0.0, k, id, outcome).0;
    assert t'.records.Keys == t.records.Keys;
    assert |t'.records| == |t'.records.Keys| && |t.records| == |t.records.Keys|;
  }

  lemma CalmSuccess(c: Config, t: Tables, k: Owner, issued: nat, failed: nat, id: Id)
    requires Calm(c, t, k, issued, failed) && k in t.owners
    requires id in t.records && t.records[id].owner == k && t.records[id].status.Pending?
    ensures var r := t.records[id];
            Verify(c, t, 0.0, k, r.action, r.payload, id, Some(r.answer)).1.Verified?
  {
    CalmCleanup(c, t, k, issued, failed);
    JudgeAccepts(c, t, k, id);
  }

  lemma JudgeAccepts(c: Config, t: Tables, k: Owner, id: Id)
    requires k in t.owners && t.owners[k].suspendedUntil.None?
    requires id in t.records && t.records[id].owner == k && t.records[id].status.Pending?
    ensures var r := t.records[id];
            Judge(c, t, 0.0, k, r.action, r.payload, id, Some(r.answer)).1.Verified?
  {
  }

  /** A refusal that brings the challenge `newId`, bound to `key`. */
  lemma CalmReissue(c: Config, t: Tables, k: Owner, issued: nat, failed: nat, action: string, payload: Payload,
                    id: Id, answer: Option<string>, newId: Id, newAnswer: string)
    requires Generous(c) && Calm(c, t, k, issued, failed) && issued < 3 && failed < 2 && k in t.owners
    requires id in t.records && t.records[id].owner == k && t.records[id].status.Pending?
    requires t.records[id].action == action && (t.records[id].payload == payload ==> answer != Some(t.records[id].answer))
    requires payload.operationId.Some? && payload.operationId.value != ""
    ensures var (t', r) := VerifyResult(c, true, t, 0.0, 0.0, k, action, payload, id, answer, true, newId, newAnswer);
            && r == Some(Required(newId, payload.operationId, ChallengeFailed))
            && newId in t'.records && t'.records[newId] == NewRecord(c, 0.0, k, action, payload, newAnswer)
            && k in t'.owners && Calm(c, t', k, issued + 1, failed + 1)
  {
    CalmRefusal(c, t, k, issued, failed, action, payload, id, answer);
    var (t1, outcome) := Verify(c, t, 0.0, k, action, payload, id, answer);
    CalmIssueResult(c, t1, k, issued, failed + 1, action, payload, newId, newAnswer, ChallengeFailed);
    VerifyReissues(c, t, k, action, payload, id, answer, newId, newAnswer, t1, outcome);
  }

  lemma VerifyReissues(c: Config, t: Tables, k: Owner, action: string, payload: Payload, id: Id, answer: Option<string>,
                       newId: Id, newAnswer: string, t1: Tables, outcome: VerifyOutcome)
    requires Verify(c, t, 0.0, k, action, payload, id, answer) == (t1, outcome)
    requires outcome in {WrongAnswer, ContextMismatch}
    ensures var (t2, r) := IssueResult(c, true, t1, 0.0, k, action, payload, newId, newAnswer, ChallengeFailed);
            VerifyResult(c, true, t, 0.0, 0.0, k, action, payload, id, answer, true, newId, newAnswer) == (t2, Some(r))
  {
  }

  lemma CalmIssueResult(c: Config, t: Tables, k: Owner, issued: nat, failed: nat, action: string, payload: Payload,
                        newId: Id, newAnswer: string, error: Error)
    requires Generous(c) && Calm(c, t, k, issued, failed) && issued < 3
    requires payload.operationId.Some? && payload.operationId.value != ""
    ensures var (t', r) := IssueResult(c, true, t, 0.0, k, action, payload, newId, newAnswer, error);
            && r == Required(newId, payload.operationId, error)
            && newId in t'.records && t'.records[newId] == NewRecord(c, 0.0, k, action, payload, newAnswer)
            && k in t'.owners && Calm(c, t', k, issued + 1, failed)
  {
    assert payload.(operationId := WriteOperationId(true, newId, payload.operationId)) == payload;
    CalmIssue(c, t, k, issued, failed, action, payload, newId, newAnswer);
  }

  function Under(fields: map<string, string>, key: Id): Payload {
    Payload(fields, Some(key))
  }

  /**
   The key drifts. The first challenge is bound to its own id, and so is the replacement after a
   wrong answer. The right answer to that one without its key is a context mismatch, and brings a
   replacement bound to the id of the second; the write it authorises goes out under that key.
   */
  lemma KeyDrifts(c: Config, k: Owner, action: string, fields: map<string, string>, first: Id, second: Id, third: Id,
                  last: Id, right: string, wrong: Option<string>)
    requires Generous(c) && first != second && "" !in {first, second} && wrong != Some(right)
    ensures var (t1, r1) := IssueResult(c, true, Tables(map[], map[]), 0.0, k, action, Payload(fields, None),
                                        first, right, NoError);
            var (t2, r2) := VerifyResult(c, true, t1, 0.0, 0.0, k, action, Under(fields, first), first, wrong,
                                         true, second, right);
            var (t3, r3) := VerifyResult(c, true, t2, 0.0, 0.0, k, action, Under(fields, second), second, Some(right),
                                         true, third, right);
            var r4 := VerifyResult(c, true, t3, 0.0, 0.0, k, action, Under(fields, second), third, Some(right),
                                   true, last, right).1;
            && r1 == Required(first, Some(first), NoError)
            && r2 == Some(Required(second, Some(first), ChallengeFailed))
            && r3 == Some(Required(third, Some(second), ChallengeFailed))
            && r4 == None
  {
    var t0 := Tables(map[], map[]);
    var t1 := IssueResult(c, true, t0, 0.0, k, action, Payload(fields, None), first, right, NoError).0;
    assert Payload(fields, None).(operationId := Some(first)) == Under(fields, first);
    CalmIssue(c, t0, k, 0, 0, action, Under(fields, first), first, right);
    CalmReissue(c, t1, k, 1, 0, action, Under(fields, first), first, wrong, second, right);
    var t2 := VerifyResult(c, true, t1, 0.0, 0.0, k, action, Under(fields, first), first, wrong, true, second, right).0;
    CalmReissue(c, t2, k, 2, 1, action, Under(fields, second), second, Some(right), third, right);
    var t3 := VerifyResult(c, true, t2, 0.0, 0.0, k, action, Under(fields, second), second, Some(right), true,
                           third, right).0;
    CalmSuccess(c, t3, k, 3, 2, third);
  }
}
