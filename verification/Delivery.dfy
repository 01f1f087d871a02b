/** What each event does to the call it is about: nothing that should happen fails to happen. */
module Delivery {
  import opened Basics
  import opened ChallengeTables
  import opened ChallengeFlow
  import opened WriteProtocol
  import ChallengeRuns
  import ChallengeIsolation
  import Solver
  import Answers
  import BoardLoads
  import Boards
  import ResponseIds
  import RequestLoop

  // ---- The content of a write ----

  /** The fields a challenge is bound to: those of the request, and for a post its board as it was named
      and as it was resolved. */
  predicate HasContent(r: Request, url: string, fields: map<string, string>) {
    match r.target
    case Direct => fields == r.fields
    case ByUrl(u) => fields == r.fields + map["board_id" := "", "board_url" := u, "resolved_board_url" := url]
    case ByBoard(text) => fields == r.fields + map["board_id" := text, "board_url" := "", "resolved_board_url" := url]
  }

  /** Where the request of a call goes: nowhere in particular, to the address given, or to the one the
      call's own list has for the board. */
  ghost predicate GoesTo(w: World, call: nat, url: string)
    requires call in w.calls
  {
    match w.calls[call].req.target
    case Direct => url == ""
    case ByUrl(u) => url == u
    case ByBoard(text) =>
      && call in w.boards && ResponseIds.BoardLookupId(text).Some?
      && Boards.Resolve(w.boards[call].boards, ResponseIds.BoardLookupId(text).value) == Boards.Found(url)
  }

  /** What the call's challenge is bound to, or its new one will be. */
  ghost predicate Binds(support: bool, w: World, call: nat, url: string, payload: Payload)
    requires call in w.calls
  {
    var r := w.calls[call].req;
    && GoesTo(w, call, url) && HasContent(r, url, payload.fields)
    && (r.challengeId.None? ==> payload.operationId == r.supplied)
    && (r.challengeId.Some? ==> IsKey(support, r.challengeId.value, r.supplied, payload.operationId))
  }

  lemma BindsPayload(support: bool, w: World, call: nat, url: string, payload: Payload)
    requires call in w.calls && Binds(support, w, call, url, payload)
    ensures ResolveTarget(w.calls[call].req.target, ListFor(w, call)) == Some(url)
    ensures PayloadOf(support, w.calls[call].req, url) == payload
  {
    var r := w.calls[call].req;
    assert r.fields + TargetFields(r.target, url) == payload.fields;
  }

  // ---- The beginning of a call ----

  /** A call begins exactly if it is a post with a board or something else without one, it has a
      challenge and an answer or neither, and every key it would carry is one. */
  lemma StartExactly(c: Config, support: bool, w: World, call: nat, r: Request, key: Option<string>)
    requires r.challengeId.Some? ==> IsKey(support, r.challengeId.value, r.supplied, key)
    requires r.challengeId.None? ==> key == r.supplied
    ensures var begins := && call !in w.calls
                          && (r.action == "create_post" <==> !r.target.Direct?)
                          && (r.challengeId.Some? <==> r.answer.Some?)
                          && (r.supplied.Some? ==> support && IsUuid(r.supplied.value))
                          && (key.Some? ==> IsUuid(key.value));
            Apply(c, support, w, Start(call, r))
            == if begins then w.(calls := w.calls[call := Call(r, Preparing, None, false, |w.trace|)]) else w
  {
  }

  /** A preparing post by board id gets the list its own forced load is answered with. */
  lemma ListArrives(c: Config, support: bool, w: World, call: nat, boards: seq<Boards.Board>)
    requires call in w.calls && w.calls[call].phase.Preparing? && w.calls[call].req.target.ByBoard?
    requires call !in w.fetches && call !in w.boards
    ensures var w1 := Apply(c, support, w, Fetch(call));
            var w2 := Apply(c, support, w1, Listed(call, boards));
            && w1.trace == w.trace + [BoardLoads.Open(w.calls[call].req.owner, true)]
            && w1.fetches == w.fetches[call := BoardLoads.LoadId(|w.trace|)]
            && call in w2.boards && w2.boards[call].boards == boards && w2.boards[call].load == w1.fetches[call]
            && w2.trace == w1.trace + [BoardLoads.Deliver(w1.fetches[call], boards)]
            && w2.calls == w1.calls == w.calls && w2.fetches == w1.fetches
  {
  }

  // ---- The challenge step ----

  predicate CanResume(w: World, e: Event) {
    && e.Resume? && e.call in w.calls && w.calls[e.call].phase.Preparing?
    && w.now <= e.later && e.newId != "" && e.newId !in w.grants
  }

  ghost predicate SameButCalls(w: World, w': World, call: nat)
    requires call in w.calls
  {
    && w'.sends == w.sends && w'.trace == w.trace && w'.fetches == w.fetches && w'.boards == w.boards
    && w'.calls.Keys == w.calls.Keys && (forall k :: k in w.calls && k != call ==> w'.calls[k] == w.calls[k])
    && w'.calls[call].req == w.calls[call].req && w'.calls[call].since == w.calls[call].since
  }

  /** The call is over, having consumed nothing and sent nothing. */
  ghost predicate EndsWith(w: World, w': World, call: nat, t: Tables, now: real)
    requires call in w.calls
  {
    && w'.tables == t && w'.now == now && w'.spent == w.spent
    && SameButCalls(w, w', call) && w'.calls[call].phase.Done?
  }

  /** Without a challenge: one is issued if the limits allow it, for the call's own context, and the call
      is over. */
  lemma AskIsIssued(c: Config, support: bool, w: World, e: Event, url: string, payload: Payload, key: Option<string>,
                    w': World)
    requires CanResume(w, e) && w.calls[e.call].req.challengeId.None?
    requires Binds(support, w, e.call, url, payload) && IsKey(support, e.newId, payload.operationId, key)
    requires w' == Apply(c, support, w, e)
    ensures var r, bound := w.calls[e.call].req, Payload(payload.fields, key);
            var (t', outcome) := Issue(c, w.tables, w.now, r.owner, r.action, bound, e.newId, e.newAnswer);
            && EndsWith(w, w', e.call, t', w.now) && w'.parent == w.parent
            && w'.grants == if outcome.Issued? then w.grants[e.newId := Grant(r.owner, r.action, bound, w.now, e.call)]
                            else w.grants
  {
    var s := w.calls[e.call].(url := Some(url));
    ResumeAsks(c, support, w, e, s, payload);
    IssueIs(c, support, w, e, s, payload, key);
  }

  lemma IssuedIs(support: bool, w: World, e: Event, s: Call, payload: Payload, t: Tables, r: Result, key: Option<string>)
    requires e.Resume? && e.call in w.calls && s.req == w.calls[e.call].req && s.since == w.calls[e.call].since
    requires WriteOperationId(support, e.newId, payload.operationId) == key
    ensures var bound, w' := Payload(payload.fields, key), WriteProtocol.Issued(w, support, e, s, payload, t, r);
            && EndsWith(w, w', e.call, t, w.now) && w'.parent == w.parent
            && w'.grants == if r.Required? then w.grants[e.newId := Grant(s.req.owner, s.req.action, bound, w.now, e.call)]
                            else w.grants
  {
  }

  lemma IssueIs(c: Config, support: bool, w: World, e: Event, s: Call, payload: Payload, key: Option<string>)
    requires e.Resume? && e.call in w.calls && s.req == w.calls[e.call].req && s.since == w.calls[e.call].since
    requires IsKey(support, e.newId, payload.operationId, key) && e.newId != ""
    ensures var bound := Payload(payload.fields, key);
            var (t', outcome) := Issue(c, w.tables, w.now, s.req.owner, s.req.action, bound, e.newId, e.newAnswer);
            var w' := IssueStep(c, support, w, e, s, payload);
            && EndsWith(w, w', e.call, t', w.now) && w'.parent == w.parent
            && w'.grants == if outcome.Issued?
                            then w.grants[e.newId := Grant(s.req.owner, s.req.action, bound, w.now, e.call)]
                            else w.grants
  {
    IssueReturns(c, support, w.tables, w.now, s.req.owner, s.req.action, payload, e.newId, e.newAnswer, NoError, key);
    var (t', r) := IssueResult(c, support, w.tables, w.now, s.req.owner, s.req.action, payload,
                               e.newId, e.newAnswer, NoError);
    IssuedIs(support, w, e, s, payload, t', r, key);
  }

  /** What verifying comes to for the call's own request. */
  ghost function Judged(c: Config, w: World, call: nat, payload: Payload): (Tables, VerifyOutcome)
    requires call in w.calls && w.calls[call].req.challengeId.Some? && w.calls[call].req.answer.Some?
  {
    var r := w.calls[call].req;
    Verify(c, w.tables, w.now, r.owner, r.action, payload, r.challengeId.value, Answers.Normalize(r.answer.value))
  }

  /** Is the challenge answered on record as the caller's own? */
  ghost predicate Owns(c: Config, w: World, call: nat)
    requires call in w.calls && w.calls[call].req.challengeId.Some?
  {
    var records, r := Cleanup(c, w.tables, w.now).records, w.calls[call].req;
    r.challengeId.value in records && records[r.challengeId.value].owner == r.owner
  }

  predicate IsAnswer(w: World, e: Event) {
    && CanResume(w, e)
    && w.calls[e.call].req.challengeId.Some? && w.calls[e.call].req.answer.Some?
  }

  function VerdictOn(support: bool, r: Request, payload: Payload, outcome: VerifyOutcome): Verdict
    requires r.challengeId.Some?
  {
    Triage(outcome, WriteOperationId(support, r.challengeId.value, payload.operationId), r.action != "create_post")
  }

  /** Outcomes that end a call: used and unknown challenges, suspensions and full tables, and another
      context if the call is a post. */
  predicate Stops(outcome: VerifyOutcome, action: string) {
    || outcome.AlreadyUsed? || outcome.UnknownId? || outcome.VerifySuspended? || outcome.VerifyLimited?
    || (outcome.ContextMismatch? && action == "create_post")
  }

  /** Outcomes that bring another challenge: late and wrong answers, and another context but for posts. */
  predicate Replaces(outcome: VerifyOutcome, action: string) {
    outcome.HasExpired? || outcome.WrongAnswer? || (outcome.ContextMismatch? && action != "create_post")
  }

  lemma VerdictKinds(support: bool, r: Request, payload: Payload, outcome: VerifyOutcome)
    requires r.challengeId.Some?
    ensures Stops(outcome, r.action) ==> VerdictOn(support, r, payload, outcome).Stop?
    ensures Replaces(outcome, r.action) ==> VerdictOn(support, r, payload, outcome).Reissue?
    ensures outcome.Verified? ==> VerdictOn(support, r, payload, outcome).Pass?
  {
  }

  lemma VerifyIs(c: Config, support: bool, w: World, e: Event, s: Call, payload: Payload, t: Tables,
                 outcome: VerifyOutcome)
    requires e.Resume? && e.call in w.calls && s.req == w.calls[e.call].req
    requires s.req.challengeId.Some? && s.req.answer.Some? && Judged(c, w, e.call, payload) == (t, outcome)
    ensures VerifyStep(c, support, w, e, s, payload)
         == AfterVerify(c, support, w, e, s, payload, t, VerdictOn(support, s.req, payload, outcome),
                        if Owns(c, w, e.call) then Some(outcome) else None)
  {
  }

  predicate OnItsWay(support: bool, w: World, e: Event, s: Call, payload: Payload) {
    && CanResume(w, e) && s.url.Some? && s == w.calls[e.call].(url := s.url)
    && (s.req.target.ByBoard? ==> e.call in w.boards) && payload == PayloadOf(support, s.req, s.url.value)
  }

  lemma CallAsks(c: Config, support: bool, w: World, e: Event, s: Call, payload: Payload)
    requires OnItsWay(support, w, e, s, payload) && s.url == ResolveTarget(s.req.target, ListFor(w, e.call))
    requires s.req.challengeId.None?
    ensures ResumeCall(c, support, w, e) == IssueStep(c, support, w, e, s, payload)
  {
  }

  lemma CallAnswers(c: Config, support: bool, w: World, e: Event, s: Call, payload: Payload)
    requires OnItsWay(support, w, e, s, payload) && s.url == ResolveTarget(s.req.target, ListFor(w, e.call))
    requires s.req.challengeId.Some? && s.req.answer.Some?
    ensures ResumeCall(c, support, w, e) == VerifyStep(c, support, w, e, s, payload)
  {
  }

  lemma Resumes(c: Config, support: bool, w: World, e: Event)
    requires e.Resume? && e.call in w.calls
    ensures Apply(c, support, w, e) == ResumeCall(c, support, w, e)
  {
    match e
    case Resume(_, _, _, _) =>
  }

  lemma ResumeAsks(c: Config, support: bool, w: World, e: Event, s: Call, payload: Payload)
    requires CanResume(w, e) && s.url.Some? && s == w.calls[e.call].(url := s.url) && s.req.challengeId.None?
    requires Binds(support, w, e.call, s.url.value, payload)
    ensures Apply(c, support, w, e) == IssueStep(c, support, w, e, s, payload)
  {
    BindsPayload(support, w, e.call, s.url.value, payload);
    Resumes(c, support, w, e);
    CallAsks(c, support, w, e, s, payload);
  }

  lemma ResumeAnswers(c: Config, support: bool, w: World, e: Event, s: Call, payload: Payload)
    requires IsAnswer(w, e) && s.url.Some? && s == w.calls[e.call].(url := s.url)
    requires Binds(support, w, e.call, s.url.value, payload)
    ensures Apply(c, support, w, e) == VerifyStep(c, support, w, e, s, payload)
  {
    BindsPayload(support, w, e.call, s.url.value, payload);
    Resumes(c, support, w, e);
    CallAnswers(c, support, w, e, s, payload);
  }

  /** The step of a call that answers, once its verification is known. */
  lemma AnswerIs(c: Config, support: bool, w: World, e: Event, s: Call, payload: Payload, t: Tables,
                 outcome: VerifyOutcome, verdict: Verdict, why: Option<VerifyOutcome>)
    requires IsAnswer(w, e) && s.url.Some? && s == w.calls[e.call].(url := s.url)
    requires Binds(support, w, e.call, s.url.value, payload) && Judged(c, w, e.call, payload) == (t, outcome)
    requires verdict == VerdictOn(support, s.req, payload, outcome)
    requires why == if Owns(c, w, e.call) then Some(outcome) else None
    ensures Apply(c, support, w, e) == AfterVerify(c, support, w, e, s, payload, t, verdict, why)
  {
    ResumeAnswers(c, support, w, e, s, payload);
    VerifyIs(c, support, w, e, s, payload, t, outcome);
  }

  lemma PassIs(c: Config, support: bool, w: World, e: Event, s: Call, payload: Payload, t: Tables, verdict: Verdict,
               why: Option<VerifyOutcome>)
    requires e.Resume? && e.call in w.calls && s.req == w.calls[e.call].req && s.since == w.calls[e.call].since
    requires s.req.challengeId.Some? && verdict.Pass?
    ensures var w' := AfterVerify(c, support, w, e, s, payload, t, verdict, why);
            && w'.tables == t && w'.now == e.later && w'.grants == w.grants && w'.parent == w.parent
            && w'.spent == w.spent[s.req.challengeId.value := Spend(e.call, w.now)]
            && SameButCalls(w, w', e.call) && w'.calls[e.call] == s.(phase := Authorised)
  {
  }

  /** The right answer consumes the challenge and authorises the call to write. */
  lemma AnswerAuthorises(c: Config, support: bool, w: World, e: Event, url: string, payload: Payload, t: Tables,
                         w': World)
    requires IsAnswer(w, e) && Binds(support, w, e.call, url, payload) && w' == Apply(c, support, w, e)
    requires Judged(c, w, e.call, payload) == (t, Verified)
    ensures var s := w.calls[e.call];
            && w'.tables == t && w'.now == e.later && w'.grants == w.grants && w'.parent == w.parent
            && w'.spent == w.spent[s.req.challengeId.value := Spend(e.call, w.now)]
            && SameButCalls(w, w', e.call)
            && w'.calls[e.call] == Call(s.req, Authorised, Some(url), s.retried, s.since)
  {
    var s := w.calls[e.call].(url := Some(url));
    var verdict, why := VerdictOn(support, s.req, payload, Verified), if Owns(c, w, e.call) then Some(Verified) else None;
    AnswerIs(c, support, w, e, s, payload, t, Verified, verdict, why);
    PassIs(c, support, w, e, s, payload, t, verdict, why);
  }

  lemma StopIs(c: Config, support: bool, w: World, e: Event, s: Call, payload: Payload, t: Tables, verdict: Verdict,
               why: Option<VerifyOutcome>, w': World)
    requires e.Resume? && e.call in w.calls && s.req == w.calls[e.call].req && s.since == w.calls[e.call].since
    requires s.req.challengeId.Some? && verdict.Stop? && w' == AfterVerify(c, support, w, e, s, payload, t, verdict, why)
    ensures EndsWith(w, w', e.call, t, e.later) && w'.grants == w.grants && w'.parent == w.parent
  {
  }

  lemma AnswerStops(c: Config, support: bool, w: World, e: Event, url: string, payload: Payload, t: Tables,
                    outcome: VerifyOutcome, w': World)
    requires IsAnswer(w, e) && Binds(support, w, e.call, url, payload) && w' == Apply(c, support, w, e)
    requires Judged(c, w, e.call, payload) == (t, outcome) && Stops(outcome, w.calls[e.call].req.action)
    ensures EndsWith(w, w', e.call, t, e.later) && w'.grants == w.grants && w'.parent == w.parent
  {
    var s := w.calls[e.call].(url := Some(url));
    var verdict, why := VerdictOn(support, s.req, payload, outcome), if Owns(c, w, e.call) then Some(outcome) else None;
    AnswerIs(c, support, w, e, s, payload, t, outcome, verdict, why);
    assert verdict.Stop? by {
      VerdictKinds(support, s.req, payload, outcome);
    }
    StopIs(c, support, w, e, s, payload, t, verdict, why, w');
  }

  /** The other challenge is issued in the same context, if the limits allow one, and linked to the one
      answered if that was the caller's own. */
  lemma AnswerIsReplaced(c: Config, support: bool, w: World, e: Event, url: string, payload: Payload, t: Tables,
                         why: VerifyOutcome, key: Option<string>, w': World)
    requires IsAnswer(w, e) && Binds(support, w, e.call, url, payload) && w' == Apply(c, support, w, e)
    requires IsKey(support, e.newId, payload.operationId, key)
    requires Judged(c, w, e.call, payload) == (t, why) && Replaces(why, w.calls[e.call].req.action)
    ensures var r, bound := w.calls[e.call].req, Payload(payload.fields, key);
            var (t', outcome) := Issue(c, t, e.later, r.owner, r.action, bound, e.newId, e.newAnswer);
            && EndsWith(w, w', e.call, t', e.later)
            && w'.grants == (if outcome.Issued?
                             then w.grants[e.newId := Grant(r.owner, r.action, bound, e.later, e.call)] else w.grants)
            && w'.parent == if outcome.Issued? && Owns(c, w, e.call)
                            then w.parent[e.newId := Link(r.challengeId.value, why)] else w.parent
  {
    var s := w.calls[e.call].(url := Some(url));
    var verdict, own := VerdictOn(support, s.req, payload, why), if Owns(c, w, e.call) then Some(why) else None;
    AnswerIs(c, support, w, e, s, payload, t, why, verdict, own);
    assert verdict.Reissue? by {
      VerdictKinds(support, s.req, payload, why);
    }
    ReplacementIs(c, support, w, e, s, payload, t, verdict, own, key, w');
  }

  lemma ReplacementIs(c: Config, support: bool, w: World, e: Event, s: Call, payload: Payload, t: Tables,
                      verdict: Verdict, why: Option<VerifyOutcome>, key: Option<string>, w': World)
    requires e.Resume? && e.call in w.calls && s.req == w.calls[e.call].req && s.since == w.calls[e.call].since
    requires s.req.challengeId.Some? && verdict.Reissue? && IsKey(support, e.newId, payload.operationId, key)
    requires e.newId != "" && w' == AfterVerify(c, support, w, e, s, payload, t, verdict, why)
    ensures var bound := Payload(payload.fields, key);
            var (t', outcome) := Issue(c, t, e.later, s.req.owner, s.req.action, bound, e.newId, e.newAnswer);
            && EndsWith(w, w', e.call, t', e.later)
            && w'.grants == (if outcome.Issued?
                             then w.grants[e.newId := Grant(s.req.owner, s.req.action, bound, e.later, e.call)]
                             else w.grants)
            && w'.parent == if outcome.Issued? && why.Some?
                            then w.parent[e.newId := Link(s.req.challengeId.value, why.value)] else w.parent
  {
    ReplaceIs(c, support, Moved(w, t, e.later), e, s, payload, verdict.error, why, key);
  }

  lemma ReplaceIs(c: Config, support: bool, w: World, e: Event, s: Call, payload: Payload, error: Error,
                  why: Option<VerifyOutcome>, key: Option<string>)
    requires e.Resume? && e.call in w.calls && s.req == w.calls[e.call].req && s.since == w.calls[e.call].since
    requires s.req.challengeId.Some? && IsKey(support, e.newId, payload.operationId, key) && e.newId != ""
    ensures var bound := Payload(payload.fields, key);
            var (t', outcome) := Issue(c, w.tables, w.now, s.req.owner, s.req.action, bound, e.newId, e.newAnswer);
            var w' := Replace(c, support, w, e, s, payload, error, why);
            && EndsWith(w, w', e.call, t', w.now)
            && w'.grants == (if outcome.Issued?
                             then w.grants[e.newId := Grant(s.req.owner, s.req.action, bound, w.now, e.call)]
                             else w.grants)
            && w'.parent == if outcome.Issued? && why.Some?
                            then w.parent[e.newId := Link(s.req.challengeId.value, why.value)] else w.parent
  {
    var issued := IssueResult(c, support, w.tables, w.now, s.req.owner, s.req.action, payload,
                              e.newId, e.newAnswer, error);
    assert IssuedAs(c, support, w.tables, w.now, e, s, payload, issued.0, issued.1, key) by {
      IssueReturns(c, support, w.tables, w.now, s.req.owner, s.req.action, payload, e.newId, e.newAnswer, error, key);
    }
    ReissuedIs(support, w, e, s, payload, issued.0, issued.1, why, key);
  }

  ghost predicate IssuedAs(c: Config, support: bool, t: Tables, now: real, e: Event, s: Call, payload: Payload,
                           t': Tables, r: Result, key: Option<string>)
    requires e.Resume?
  {
    var issue := Issue(c, t, now, s.req.owner, s.req.action, Payload(payload.fields, key), e.newId, e.newAnswer);
    t' == issue.0 && (r.Required? <==> issue.1.Issued?)
  }

  lemma ReissuedIs(support: bool, w: World, e: Event, s: Call, payload: Payload, t: Tables, r: Result,
                   why: Option<VerifyOutcome>, key: Option<string>)
    requires e.Resume? && e.call in w.calls && s.req == w.calls[e.call].req && s.since == w.calls[e.call].since
    requires s.req.challengeId.Some? && WriteOperationId(support, e.newId, payload.operationId) == key
    ensures var bound, w' := Payload(payload.fields, key), Reissued(w, support, e, s, payload, t, r, why);
            && EndsWith(w, w', e.call, t, w.now)
            && w'.grants == (if r.Required? then w.grants[e.newId := Grant(s.req.owner, s.req.action, bound, w.now, e.call)]
                             else w.grants)
            && w'.parent == if r.Required? && why.Some?
                            then w.parent[e.newId := Link(s.req.challengeId.value, why.value)] else w.parent
  {
    IssuedIs(support, w, e, s, payload, t, r, key);
  }

  // ---- The end of a call, and what is around it ----

  /** A post for a board id that its fresh list does not have ends there, without a challenge. */
  lemma TargetFails(c: Config, support: bool, w: World, e: Event, text: string)
    requires CanResume(w, e) && w.calls[e.call].req.target == ByBoard(text) && e.call in w.boards
    requires ResponseIds.BoardLookupId(text).Some? ==>
               !Boards.Resolve(w.boards[e.call].boards, ResponseIds.BoardLookupId(text).value).Found?
    ensures Apply(c, support, w, e) == w.(calls := w.calls[e.call := w.calls[e.call].(phase := Done)])
  {
  }

  /** Any response ends the call, a failure no less than a success: a write is not tried again. A call
      that is aborted is over too, and nothing is undone. */
  lemma CallEnds(c: Config, support: bool, w: World, e: Event, call: nat)
    requires call in w.calls
    requires e == Abort(call) || (e.Respond? && e.call == call && w.calls[call].phase.InFlight?)
    ensures Apply(c, support, w, e) == w.(calls := w.calls[call := w.calls[call].(phase := Done)])
  {
  }

  /** Time passes, and other loads come and go, on their own. */
  lemma WorldMoves(c: Config, support: bool, w: World, dt: real, load: BoardLoads.Event)
    requires dt >= 0.0 && (load.Deliver? ==> load.id !in w.fetches.Values)
    ensures Apply(c, support, w, Tick(dt)) == w.(now := w.now + dt)
    ensures Apply(c, support, w, Cache(load)) == w.(trace := w.trace + [load])
  {
  }

  // ---- The tables are well formed in every run ----

  lemma IssueResultWellFormed(c: Config, support: bool, t: Tables, now: real, k: Owner, action: string,
                              payload: Payload, newId: Id, answer: string, error: Error)
    requires WellFormed(t)
    ensures WellFormed(IssueResult(c, support, t, now, k, action, payload, newId, answer, error).0)
  {
    IssueWellFormed(c, t, now, k, action, payload.(operationId := WriteOperationId(support, newId, payload.operationId)),
                    newId, answer);
  }

  lemma AskWellFormed(c: Config, support: bool, w: World, e: Event, s: Call, payload: Payload)
    requires WellFormed(w.tables) && e.Resume? && e.call in w.calls
    ensures WellFormed(IssueStep(c, support, w, e, s, payload).tables)
  {
    IssueResultWellFormed(c, support, w.tables, w.now, s.req.owner, s.req.action, payload, e.newId, e.newAnswer, NoError);
  }

  lemma ResumeWellFormed(c: Config, support: bool, w: World, e: Event)
    requires WellFormed(w.tables) && e.Resume? && e.call in w.calls
    ensures WellFormed(ResumeCall(c, support, w, e).tables)
  {
    var s := w.calls[e.call];
    var url := ResolveTarget(s.req.target, ListFor(w, e.call));
    if url.Some? {
      var payload := PayloadOf(support, s.req, url.value);
      if s.req.challengeId.None? {
        AskWellFormed(c, support, w, e, s.(url := url), payload);
      } else if s.req.answer.Some? {
        AnswerWellFormed(c, support, w, e, s.(url := url), payload);
      }
    }
  }

  lemma AnswerWellFormed(c: Config, support: bool, w: World, e: Event, s: Call, payload: Payload)
    requires WellFormed(w.tables) && e.Resume? && e.call in w.calls && s.req.challengeId.Some? && s.req.answer.Some?
    ensures WellFormed(VerifyStep(c, support, w, e, s, payload).tables)
  {
    var id, answer := s.req.challengeId.value, Answers.Normalize(s.req.answer.value);
    VerifyWellFormed(c, w.tables, w.now, s.req.owner, s.req.action, payload, id, answer);
    var (t, outcome) := Verify(c, w.tables, w.now, s.req.owner, s.req.action, payload, id, answer);
    var verdict := Triage(outcome, WriteOperationId(support, id, payload.operationId), s.req.action != "create_post");
    AfterWellFormed(c, support, w, e, s, payload, t, verdict,
                    if OwnAnswer(c, w.tables, w.now, s.req) then Some(outcome) else None);
  }

  lemma AfterWellFormed(c: Config, support: bool, w: World, e: Event, s: Call, payload: Payload, t: Tables,
                        verdict: Verdict, why: Option<VerifyOutcome>)
    requires WellFormed(t) && e.Resume? && e.call in w.calls && s.req.challengeId.Some?
    ensures WellFormed(AfterVerify(c, support, w, e, s, payload, t, verdict, why).tables)
  {
    if verdict.Reissue? {
      IssueResultWellFormed(c, support, t, e.later, s.req.owner, s.req.action, payload, e.newId, e.newAnswer, verdict.error);
    }
  }

  lemma ApplyWellFormed(c: Config, support: bool, w: World, e: Event)
    requires WellFormed(w.tables)
    ensures WellFormed(Apply(c, support, w, e).tables)
  {
    if e.Resume? && e.call in w.calls {
      ResumeWellFormed(c, support, w, e);
    } else {
      TablesStay(c, support, w, e);
    }
  }

  lemma TablesStay(c: Config, support: bool, w: World, e: Event)
    requires !(e.Resume? && e.call in w.calls)
    ensures Apply(c, support, w, e).tables == w.tables
  {
    match e
    case Tick(_) =>
    case Start(_, _) =>
    case Abort(_) =>
    case Fetch(_) =>
    case Listed(_, _) =>
    case Cache(_) =>
    case Resume(_, _, _, _) =>
    case Transmit(_) =>
    case Respond(_, _, _) =>
  }

  lemma {:induction false} RunTables(c: Config, support: bool, events: seq<Event>)
    ensures WellFormed(Run(c, support, events).tables)
  {
    if events != [] {
      RunTables(c, support, events[..|events| - 1]);
      ApplyWellFormed(c, support, Run(c, support, events[..|events| - 1]), events[|events| - 1]);
    }
  }

  // ---- Sending ----

  /** The call an event is about. */
  function About(e: Event): Option<nat> {
    match e
    case Tick(_) => None
    case Cache(_) => None
    case _ => Some(e.call)
  }

  lemma OthersStay(c: Config, support: bool, w: World, e: Event, call: nat)
    requires call in w.calls && About(e) != Some(call)
    ensures var w' := Apply(c, support, w, e); call in w'.calls && w'.calls[call] == w.calls[call]
  {
    if e.Resume? && e.call in w.calls {
      OthersResume(c, support, w, e, call);
    }
  }

  lemma OthersResume(c: Config, support: bool, w: World, e: Event, call: nat)
    requires call in w.calls && e.Resume? && e.call in w.calls && e.call != call
    ensures var w' := ResumeCall(c, support, w, e); call in w'.calls && w'.calls[call] == w.calls[call]
  {
    var s := w.calls[e.call];
    var url := ResolveTarget(s.req.target, ListFor(w, e.call));
    if url.Some? && (s.req.target.ByBoard? ==> e.call in w.boards) {
      var payload := PayloadOf(support, s.req, url.value);
      if s.req.challengeId.None? {
        IssueIsOneCall(c, support, w, e, s.(url := url), payload);
      } else if s.req.answer.Some? {
        VerifyIsOneCall(c, support, w, e, s.(url := url), payload);
      }
    }
  }

  lemma {:induction false} OthersRun(c: Config, support: bool, events: seq<Event>, mid: seq<Event>, call: nat)
    requires call in Run(c, support, events).calls && forall i :: 0 <= i < |mid| ==> About(mid[i]) != Some(call)
    ensures var w := Run(c, support, events + mid);
            call in w.calls && w.calls[call] == Run(c, support, events).calls[call]
  {
    if mid == [] {
      assert events + mid == events;
    } else {
      var n := |mid| - 1;
      assert (events + mid)[..|events + mid| - 1] == events + mid[..n] && (events + mid)[|events + mid| - 1] == mid[n];
      OthersRun(c, support, events, mid[..n], call);
      OthersStay(c, support, Run(c, support, events + mid[..n]), mid[n], call);
    }
  }

  /** An authorised call sends its request, once. */
  lemma TransmitSends(c: Config, support: bool, w: World, call: nat, url: string, payload: Payload)
    requires call in w.calls && w.calls[call].phase.Authorised? && w.calls[call].url == Some(url)
    requires var r := w.calls[call].req;
             && r.challengeId.Some? && HasContent(r, url, payload.fields)
             && IsKey(support, r.challengeId.value, r.supplied, payload.operationId)
    ensures var s, w' := w.calls[call], Apply(c, support, w, Transmit(call));
            && w'.sends == w.sends + [Send(call, s.req.challengeId.value, s.req.owner, s.req.action, payload, url,
                                           payload.operationId, w.now)]
            && w'.calls == w.calls[call := s.(phase := InFlight)] && w'.tables == w.tables && w'.now == w.now
  {
    var r := w.calls[call].req;
    assert r.fields + TargetFields(r.target, url) == payload.fields;
    assert PayloadOf(support, r, url) == payload;
  }

  /** The challenge answered is on record as the caller's own, for this context, with its time not up. */
  ghost predicate Matches(w: World, call: nat, payload: Payload, answer: string)
    requires call in w.calls && w.calls[call].req.challengeId.Some?
  {
    var r := w.calls[call].req;
    r.challengeId.value in w.tables.records &&
    var record := w.tables.records[r.challengeId.value];
    && record.status.Pending? && w.now < record.expiresAt && record.owner == r.owner
    && record.action == r.action && record.payload == payload && record.answer == answer
  }

  lemma MatchingPasses(c: Config, w: World, call: nat, payload: Payload, answer: string)
    requires call in w.calls && w.calls[call].req.challengeId.Some? && w.calls[call].req.answer.Some?
    requires WellFormed(w.tables) && Matches(w, call, payload, answer)
    requires Answers.Normalize(w.calls[call].req.answer.value) == Some(answer)
    requires !OwnerOf(w.tables, w.calls[call].req.owner).Suspended(w.now)
    ensures Judged(c, w, call, payload).1.Verified?
  {
    var r := w.calls[call].req;
    var op := ChallengeRuns.VerifyOp(w.now, r.owner, r.action, payload, r.challengeId.value,
                                     Answers.Normalize(r.answer.value));
    Solver.VerdictByAnswer(c, w.tables, op, w.tables.records[r.challengeId.value]);
  }

  /**
   Nothing answered rightly stays unsent. In every run, if the challenge of a call is pending, its time
   is not up, it is the caller's own and was issued for what the call would now send, the answer is the
   expected one and the owner is not suspended, then the call goes on to send exactly that, however
   the other calls interleave with it.
   */
  lemma AnswerIsSent(c: Config, support: bool, events: seq<Event>, e: Event, mid: seq<Event>, url: string,
                     payload: Payload, answer: string)
    requires var w := Run(c, support, events);
             && IsAnswer(w, e) && Binds(support, w, e.call, url, payload) && Matches(w, e.call, payload, answer)
             && Answers.Normalize(w.calls[e.call].req.answer.value) == Some(answer)
             && !OwnerOf(w.tables, w.calls[e.call].req.owner).Suspended(w.now)
    requires forall i :: 0 <= i < |mid| ==> About(mid[i]) != Some(e.call)
    ensures var r := Run(c, support, events).calls[e.call].req;
            var w := Run(c, support, events + [e] + mid);
            var w' := Apply(c, support, w, Transmit(e.call));
            w'.sends == w.sends + [Send(e.call, r.challengeId.value, r.owner, r.action, payload, url,
                                        payload.operationId, w.now)]
    ensures var w, w' := Run(c, support, events), Apply(c, support, Run(c, support, events), e);
            && w'.sends == w.sends && w'.now == e.later
            && w'.spent == w.spent[w.calls[e.call].req.challengeId.value := Spend(e.call, w.now)]
  {
    var w := Run(c, support, events);
    RunTables(c, support, events);
    MatchingPasses(c, w, e.call, payload, answer);
    AnswerAuthorises(c, support, w, e, url, payload, Judged(c, w, e.call, payload).0, Apply(c, support, w, e));
    assert (events + [e])[..|events|] == events;
    OthersRun(c, support, events + [e], mid, e.call);
    TransmitSends(c, support, Run(c, support, events + [e] + mid), e.call, url, payload);
  }

  // ---- What was sent is what was asked for ----

  /**
   Every request sent is the one its call was asked to make, for the very content the challenge was
   issued for. Both the call that sent it and the call that was issued the challenge named the same
   owner, action, fields and board, and the address is the one they gave or both resolved.
   */
  lemma SentAsAsked(c: Config, support: bool, events: seq<Event>, i: nat)
    requires i < |Run(c, support, events).sends|
    ensures var w := Run(c, support, events);
            var s := w.sends[i];
            && s.call in w.calls && s.challenge in w.grants && w.grants[s.challenge].issuer in w.calls
            && var r, asked := w.calls[s.call].req, w.calls[w.grants[s.challenge].issuer].req;
            && r.challengeId == Some(s.challenge)
            && s.owner == r.owner == asked.owner && s.action == r.action == asked.action
            && GoesTo(w, s.call, s.url)
            && HasContent(r, s.url, s.payload.fields) && HasContent(asked, s.url, s.payload.fields)
            && s.key == s.payload.operationId && IsKey(support, s.challenge, r.supplied, s.key)
  {
    var w := Run(c, support, events);
    RunKeeps(c, support, events);
    RunKeepsLists(c, support, events);
    var s := w.sends[i];
    assert SendGranted(support, w, i);
    assert GrantResolved(support, w, s.challenge);
    var issuer := w.grants[s.challenge].issuer;
    assert ListKept(w, s.call) && ListKept(w, issuer);
    assert Accepted(support, w.calls[s.call].req) && Accepted(support, w.calls[issuer].req);
    SameAddress(w.calls[s.call].req, w.calls[issuer].req, s.url, w.calls[issuer].url.value);
  }

  /** Equal fields name one address. */
  lemma SameAddress(a: Request, b: Request, url: string, url': string)
    requires a.fields + TargetFields(a.target, url) == b.fields + TargetFields(b.target, url')
    requires a.target.Direct? <==> b.target.Direct?
    ensures !a.target.Direct? ==> url == url'
    ensures HasContent(a, url, a.fields + TargetFields(a.target, url))
    ensures HasContent(b, url', b.fields + TargetFields(b.target, url'))
  {
    if !a.target.Direct? {
      assert (a.fields + TargetFields(a.target, url))["resolved_board_url"] == url;
      assert (b.fields + TargetFields(b.target, url'))["resolved_board_url"] == url';
    }
  }
}
