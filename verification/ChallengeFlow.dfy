/** Issue, verify and reissue as the write tools drive them, with the idempotency key they carry. */
module ChallengeFlow {
  import opened Basics
  import opened ChallengeTables
  import CM = ChallengeManager
  import Answers

  // ---- Idempotency keys ----

  predicate IsLowerHex(ch: char) {
    '0' <= ch <= '9' || 'a' <= ch <= 'f'
  }

  /** A canonical lowercase UUID. */
  predicate IsUuid(s: string) {
    && |s| == 36
    && forall i :: 0 <= i < 36 ==> if i in {8, 13, 18, 23} then s[i] == '-' else IsLowerHex(s[i])
  }

  /** The key a write carries: the one supplied, else the challenge id; none without backend support. */
  function WriteOperationId(support: bool, id: Id, supplied: Option<string>): Option<string> {
    if !support then None
    else if supplied.Some? && supplied.value != "" then supplied
    else Some(id)
  }

  /** `WriteOperationId` raises on anything but a canonical UUID. */
  predicate KeyOk(support: bool, id: Id, supplied: Option<string>) {
    WriteOperationId(support, id, supplied).Some? ==> IsUuid(WriteOperationId(support, id, supplied).value)
  }

  // ---- Results ----

  datatype Error = NoError | ChallengeExpired | ChallengeUsed | ChallengeUnknown | ChallengeFailed
                 | ChallengeContextMismatch | Limit(code: Code) | Suspension

  datatype Result =
    | Required(challenge: Id, operationId: Option<string>, error: Error)
    | Refused(operationId: Option<string>, error: Error, retryAfter: int)
    | Blocked(operationId: Option<string>, error: Error)

  function Limited(outcome: IssueOutcome, key: Option<string>): Result
    requires !outcome.Issued?
  {
    match outcome
    case IssueSuspended(wait) => Refused(key, Suspension, wait)
    case IssueLimited(code, wait) => Refused(key, Limit(code), wait)
  }

  /** `newId` is the fresh id, `answer` the answer of the challenge generated for it. */
  ghost function IssueResult(c: Config, support: bool, t: Tables, now: real, k: Owner, action: string,
                             payload: Payload, newId: Id, answer: string, error: Error): (Tables, Result)
  {
    var retained := if payload.operationId.None? then None
                    else WriteOperationId(support, payload.operationId.value, payload.operationId);
    var key := WriteOperationId(support, newId, payload.operationId);
    var bound := payload.(operationId := key);
    var (t', outcome) := Issue(c, t, now, k, action, bound, newId, answer);
    (t', if outcome.Issued? then Required(newId, WriteOperationId(support, newId, key), error)
         else Limited(outcome, retained))
  }

  datatype Verdict = Pass | Reissue(error: Error) | Stop(result: Result)

  /** What the flow makes of a verification outcome. */
  function Triage(outcome: VerifyOutcome, key: Option<string>, reissueMismatch: bool): Verdict {
    match outcome
    case Verified => Pass
    case VerifySuspended(wait) => Stop(Refused(key, Suspension, wait))
    case VerifyLimited(code, wait) => Stop(Refused(key, Limit(code), wait))
    case AlreadyUsed => Stop(Blocked(key, ChallengeUsed))
    case UnknownId => Stop(Blocked(key, ChallengeUnknown))
    case ContextMismatch =>
      if reissueMismatch then Reissue(ChallengeFailed) else Stop(Blocked(key, ChallengeContextMismatch))
    case HasExpired => Reissue(ChallengeExpired)
    case WrongAnswer => Reissue(ChallengeFailed)
  }

  /** None means the write may go ahead. `later` is the clock when a replacement is issued. */
  ghost function VerifyResult(c: Config, support: bool, t: Tables, now: real, later: real, k: Owner, action: string,
                              payload: Payload, id: Id, submitted: Option<string>, reissueMismatch: bool,
                              newId: Id, newAnswer: string): (Tables, Option<Result>)
  {
    var key := WriteOperationId(support, id, payload.operationId);
    var (t', outcome) := Verify(c, t, now, k, action, payload, id, submitted);
    match Triage(outcome, key, reissueMismatch)
    case Pass => (t', None)
    case Stop(r) => (t', Some(r))
    case Reissue(error) =>
      var (t'', r) := IssueResult(c, support, t', later, k, action, payload, newId, newAnswer, error);
      (t'', Some(r))
  }

  // ---- The methods that drive the manager ----

  /** The numbers drawn for a challenge. */
  datatype Expression = Expression(left: nat, right: nat, operation: Answers.Operation)
  {
    predicate Valid() {
      && left > 0 && right > 0
      && (operation.Divide? ==> Answers.QuotientPlaces(left, right) >= 0)
    }

    function Answer(): string
      requires Valid()
    {
      Answers.Calculate(left, right, operation)
    }
  }

  method IssueChallengeResult(m: CM.Manager, support: bool, now: real, k: Owner, action: string,
                              payload: Payload, newId: Id, drawn: Expression, error: Error) returns (r: Result)
    requires m.Valid() && drawn.Valid()
    modifies m, m.challenges.Values, m.owners.Values
    ensures m.Valid() && m.Grown(old(m.challenges), old(m.owners))
    ensures (m.View(), r) == IssueResult(m.config, support, old(m.View()), now, k, action, payload, newId,
                                         drawn.Answer(), error)
  {
    var original := payload.operationId;
    var retained := if original.Some? then WriteOperationId(support, original.value, original) else None;
    var key := WriteOperationId(support, newId, original);
    var bound := payload.(operationId := key);
    var outcome := m.IssueChallenge(now, k, action, bound, newId, drawn.left, drawn.right, drawn.operation);
    if outcome.Issued? {
      r := Required(newId, WriteOperationId(support, newId, bound.operationId), error);
    } else {
      r := Limited(outcome, retained);
    }
  }

  method VerifyOrReissue(m: CM.Manager, support: bool, now: real, later: real, k: Owner, action: string,
                         payload: Payload, id: Id, answer: string, reissueMismatch: bool,
                         newId: Id, drawn: Expression) returns (r: Option<Result>)
    requires m.Valid() && drawn.Valid()
    modifies m, m.challenges.Values, m.owners.Values
    ensures m.Valid()
    ensures (m.View(), r) == VerifyResult(m.config, support, old(m.View()), now, later, k, action, payload, id,
                                          Answers.Normalize(answer), reissueMismatch, newId, drawn.Answer())
  {
    var key := WriteOperationId(support, id, payload.operationId);
    var outcome := m.VerifyChallenge(now, k, action, payload, id, answer);
    ghost var t := m.View();
    match Triage(outcome, key, reissueMismatch)
    case Pass =>
      r := None;
    case Stop(stopped) =>
      r := Some(stopped);
    case Reissue(error) =>
      var issued := IssueChallengeResult(m, support, later, k, action, payload, newId, drawn, error);
      r := Some(issued);
  }

  // ---- Properties of one call ----

  /** Every expression the generator can draw has an answer. */
  lemma DrawnIsValid(e: Expression)
    requires 1 <= e.left <= 99 && 1 <= e.right <= 99
    ensures e.Valid()
  {
    Answers.CalculateIsNormal(e.left, e.right, e.operation);
  }

  /** `key` is what a write carries: nothing without backend support, else the key supplied unless it is
      empty, else the challenge id. */
  predicate IsKey(support: bool, id: Id, supplied: Option<string>, key: Option<string>) {
    && (!support ==> key.None?)
    && (support && supplied.Some? && supplied.value != "" ==> key == supplied)
    && (support && (supplied.None? || supplied == Some("")) ==> key == Some(id))
  }

  ghost predicate Groups(s: string, a: string, b: string, d: string, e: string, f: string) {
    && s == a + "-" + b + "-" + d + "-" + e + "-" + f
    && |a| == 8 && |b| == |d| == |e| == 4 && |f| == 12
    && forall ch :: ch in a + b + d + e + f ==> ch in "0123456789abcdef"
  }

  /** A canonical UUID is five groups of lower-case hexadecimal digits, joined by hyphens. */
  lemma UuidGroups(s: string)
    ensures IsUuid(s) <==> exists a, b, d, e, f :: Groups(s, a, b, d, e, f)
  {
    if IsUuid(s) {
      UuidSplits(s);
    }
    if a, b, d, e, f :| Groups(s, a, b, d, e, f) {
      UuidJoins(s, a, b, d, e, f);
    }
  }

  lemma HexIs(ch: char)
    ensures IsLowerHex(ch) <==> ch in "0123456789abcdef"
  {
  }

  lemma UuidSplits(s: string)
    requires IsUuid(s)
    ensures Groups(s, s[..8], s[9..13], s[14..18], s[19..23], s[24..])
  {
    forall ch | ch in s[..8] + s[9..13] + s[14..18] + s[19..23] + s[24..] ensures ch in "0123456789abcdef" {
      HexIs(ch);
    }
  }

  lemma UuidJoins(s: string, a: string, b: string, d: string, e: string, f: string)
    requires Groups(s, a, b, d, e, f)
    ensures IsUuid(s)
  {
    var g := a + b + d + e + f;
    forall i | 0 <= i < 36 ensures if i in {8, 13, 18, 23} then s[i] == '-' else IsLowerHex(s[i]) {
      if i !in {8, 13, 18, 23} {
        var k := if i < 8 then i else if i < 13 then i - 1 else if i < 18 then i - 2 else if i < 23 then i - 3 else i - 4;
        assert s[i] == g[k];
        HexIs(g[k]);
      }
    }
  }

  /**
   What issuing through the flow does. An admitted challenge is shown under its id, with the key it is
   bound to, and is on record for this context, pending until its time is up; a refusal passes on the
   limit that fired and its wait, and hands back the key that was supplied.
   */
  lemma IssueReturns(c: Config, support: bool, t: Tables, now: real, k: Owner, action: string,
                     payload: Payload, newId: Id, answer: string, error: Error, key: Option<string>)
    requires IsKey(support, newId, payload.operationId, key) && newId != ""
    ensures var bound := Payload(payload.fields, key);
            var (t1, outcome) := Issue(c, t, now, k, action, bound, newId, answer);
            var (t', r) := IssueResult(c, support, t, now, k, action, payload, newId, answer, error);
            && t' == t1
            && (outcome.Issued? ==>
                  && r == Required(newId, key, error) && newId in t'.records
                  && t'.records[newId] == Record(k, action, bound, answer, now + c.expires as real, Pending, None))
            && (outcome.IssueSuspended? ==> r.Refused? && r.error == Suspension && r.retryAfter == outcome.retryAfter)
            && (outcome.IssueLimited? ==> r.Refused? && r.error == Limit(outcome.code) && r.retryAfter == outcome.retryAfter)
            && (!outcome.Issued? && payload.operationId.None? ==> r.operationId.None?)
            && (!outcome.Issued? && payload.operationId.Some? && payload.operationId.value != "" ==>
                  r.operationId == if support then payload.operationId else None)
  {
    assert WriteOperationId(support, newId, payload.operationId) == key;
    assert payload.(operationId := key) == Payload(payload.fields, key);
  }

  /**
   What a verification through the flow does, outcome by outcome. The write may go ahead exactly after
   a successful one. A late or a wrong answer brings a new challenge, in the same context and with the
   reason; so does one in another context, unless that is to block. Everything else stops the call.
   */
  lemma FlowReturns(c: Config, support: bool, t: Tables, now: real, later: real, k: Owner, action: string,
                    payload: Payload, id: Id, submitted: Option<string>, reissueMismatch: bool,
                    newId: Id, newAnswer: string, key: Option<string>)
    requires IsKey(support, id, payload.operationId, key)
    ensures var (t1, outcome) := Verify(c, t, now, k, action, payload, id, submitted);
            var (t', r) := VerifyResult(c, support, t, now, later, k, action, payload, id, submitted,
                                        reissueMismatch, newId, newAnswer);
            && (r.None? <==> outcome.Verified?)
            && (outcome.HasExpired? ==>
                  r.Some? && (t', r.value) == IssueResult(c, support, t1, later, k, action, payload, newId, newAnswer,
                                                          ChallengeExpired))
            && (outcome.WrongAnswer? || (outcome.ContextMismatch? && reissueMismatch) ==>
                  r.Some? && (t', r.value) == IssueResult(c, support, t1, later, k, action, payload, newId, newAnswer,
                                                          ChallengeFailed))
            && (outcome.ContextMismatch? && !reissueMismatch ==> r == Some(Blocked(key, ChallengeContextMismatch)))
            && (outcome.AlreadyUsed? ==> r == Some(Blocked(key, ChallengeUsed)))
            && (outcome.UnknownId? ==> r == Some(Blocked(key, ChallengeUnknown)))
            && (outcome.VerifySuspended? ==> r == Some(Refused(key, Suspension, outcome.retryAfter)))
            && (outcome.VerifyLimited? ==> r == Some(Refused(key, Limit(outcome.code), outcome.retryAfter)))
            && (!outcome.HasExpired? && !outcome.WrongAnswer? && !(outcome.ContextMismatch? && reissueMismatch) ==>
                  t' == t1)
  {
    assert WriteOperationId(support, id, payload.operationId) == key;
  }

  /** Used and unknown ids never lead to another challenge: no record appears. */
  lemma NeverExtended(c: Config, support: bool, t: Tables, now: real, later: real, k: Owner, action: string,
                      payload: Payload, id: Id, submitted: Option<string>, reissueMismatch: bool,
                      newId: Id, newAnswer: string)
    requires now <= later
    requires RecordOf(Cleanup(c, t, now), id).Some? ==>
               RecordOf(Cleanup(c, t, now), id).value.owner == k && RecordOf(Cleanup(c, t, now), id).value.status.Used?
    ensures var (t', r) := VerifyResult(c, support, t, now, later, k, action, payload, id, submitted,
                                        reissueMismatch, newId, newAnswer);
            && t'.records == Cleanup(c, t, now).records
            && r == Some(Blocked(WriteOperationId(support, id, payload.operationId),
                                 if id in t'.records then ChallengeUsed else ChallengeUnknown))
  {
  }

  /** The key shown with a challenge is the key its record is bound to, supplied or its own id. */
  lemma KeyShown(c: Config, support: bool, t: Tables, now: real, k: Owner, action: string,
                 payload: Payload, newId: Id, answer: string, error: Error)
    requires newId != "" && (payload.operationId.Some? ==> payload.operationId.value != "")
    requires IssueResult(c, support, t, now, k, action, payload, newId, answer, error).1.Required?
    ensures var (t', r) := IssueResult(c, support, t, now, k, action, payload, newId, answer, error);
            && newId in t'.records && r.challenge == newId
            && r.operationId == t'.records[newId].payload.operationId
            && r.operationId == (if !support then None
                                 else if payload.operationId.Some? then payload.operationId else Some(newId))
            && t'.records[newId].payload.fields == payload.fields
            && t'.records[newId].owner == k && t'.records[newId].action == action
  {
  }
}
