/**
 The write tools as coroutines. Any number of calls interleave at their awaits; each runs its
 challenge step without an await, and then may send its HTTP request.
 */
module WriteProtocol {
  import opened Basics
  import opened ChallengeTables
  import opened ChallengeFlow
  import Answers
  import BoardLoads
  import Boards
  import ResponseIds
  import RequestLoop

  /** A note, comment or reply names its target in its fields; a post goes to a board. */
  datatype Target = Direct | ByUrl(url: string) | ByBoard(text: string)

  datatype Request = Request(owner: Owner, action: string, fields: map<string, string>, target: Target,
                             challengeId: Option<Id>, answer: Option<string>, supplied: Option<string>)

  /** The checks made before the first await. */
  predicate Accepted(support: bool, r: Request) {
    && (r.action == "create_post" <==> !r.target.Direct?)
    && (r.challengeId.Some? <==> r.answer.Some?)
    && (r.supplied.Some? ==> support && IsUuid(r.supplied.value))
    && (r.challengeId.Some? ==> KeyOk(support, r.challengeId.value, r.supplied))
  }

  function TargetFields(target: Target, url: string): map<string, string> {
    match target
    case Direct => map[]
    case ByUrl(u) => map["board_id" := "", "board_url" := u, "resolved_board_url" := url]
    case ByBoard(text) => map["board_id" := text, "board_url" := "", "resolved_board_url" := url]
  }

  /** The payload a challenge is bound to; `url` is the board address the request will go to. */
  function PayloadOf(support: bool, r: Request, url: string): Payload {
    Payload(r.fields + TargetFields(r.target, url),
            if r.challengeId.Some? then WriteOperationId(support, r.challengeId.value, r.supplied) else r.supplied)
  }

  /** The address a fresh board list gives for the target; None when the call fails here. */
  ghost function ResolveTarget(target: Target, boards: seq<Boards.Board>): Option<string> {
    match target
    case Direct => Some("")
    case ByUrl(u) => Some(u)
    case ByBoard(text) =>
      var id := ResponseIds.BoardLookupId(text);
      if id.None? then None
      else
        match Boards.Resolve(boards, id.value)
        case Found(u) => Some(u)
        case _ => None
  }

  datatype Phase = Preparing | Authorised | InFlight | Done

  /** `url` is the address the target resolved to; `since` is where the trace of the board cache stood
      when the call started. */
  datatype Call = Call(req: Request, phase: Phase, url: Option<string>, retried: bool, since: nat)

  /** The board list a call waited for: its load, and the cache event that delivered it. */
  datatype Listing = Listing(load: BoardLoads.LoadId, at: nat, boards: seq<Boards.Board>)

  datatype Grant = Grant(owner: Owner, action: string, payload: Payload, at: real, issuer: nat)

  datatype Spend = Spend(call: nat, at: real)

  datatype Send = Send(call: nat, challenge: Id, owner: Owner, action: string, payload: Payload,
                       url: string, key: Option<string>, at: real)

  /** A challenge of the caller's own that another one replaced, and the outcome of the answer to it. */
  datatype Link = Link(id: Id, why: VerifyOutcome)

  /** `trace` is all that has happened to the board cache; `fetches` and `boards` are the forced load of
      each call and what it returned. `grants`, `spent`, `parent` and `sends` record every challenge
      issued, every one consumed, every replacement and every request sent. */
  datatype World = World(tables: Tables, now: real, calls: map<nat, Call>, trace: seq<BoardLoads.Event>,
                         fetches: map<nat, BoardLoads.LoadId>, boards: map<nat, Listing>,
                         grants: map<Id, Grant>, spent: map<Id, Spend>, parent: map<Id, Link>, sends: seq<Send>)

  datatype Event =
    | Tick(dt: real)
    | Start(call: nat, req: Request)
    | Abort(call: nat)
    | Fetch(call: nat)
    | Listed(call: nat, boards: seq<Boards.Board>)
    | Cache(event: BoardLoads.Event)
    | Resume(call: nat, later: real, newId: Id, newAnswer: string)
    | Transmit(call: nat)
    | Respond(call: nat, reply: RequestLoop.Reply, remaining: real)

  const START := World(Tables(map[], map[]), 0.0, map[], [], map[], map[], map[], map[], map[], [])

  function WithCall(w: World, call: nat, s: Call): World {
    w.(calls := w.calls[call := s])
  }

  /** The tables and the clock after a step of the manager. */
  function Moved(w: World, t: Tables, now: real): World {
    w.(tables := t, now := now)
  }

  function Begun(w: World, req: Request): Call {
    Call(req, Preparing, None, false, |w.trace|)
  }

  predicate SameCall(a: Call, b: Call) {
    a.req == b.req && a.since == b.since
  }

  function Ended(s: Call): Call {
    s.(phase := Done)
  }

  /** Does the caller answer a challenge of its own? */
  predicate OwnAnswer(c: Config, t: Tables, now: real, r: Request) {
    r.challengeId.Some? &&
    var held := RecordOf(Cleanup(c, t, now), r.challengeId.value);
    held.Some? && held.value.owner == r.owner
  }

  function WithLink(w: World, id: Id, link: Link): World {
    w.(parent := w.parent[id := link])
  }

  /** The payload a new challenge is bound to. */
  function Rebound(support: bool, newId: Id, payload: Payload): Payload {
    payload.(operationId := WriteOperationId(support, newId, payload.operationId))
  }

  /** A fresh challenge under `newId`, if one was issued. */
  function WithGrant(w: World, support: bool, call: nat, payload: Payload, newId: Id, r: Result, at: real): World
    requires call in w.calls
  {
    if r.Required? then
      var req := w.calls[call].req;
      w.(grants := w.grants[newId := Grant(req.owner, req.action,
           Rebound(support, newId, payload), at, call)])
    else w
  }

  /** The end of a call that tried to issue a challenge and left the tables `t`. */
  function Issued(w: World, support: bool, e: Event, s: Call, payload: Payload, t: Tables, r: Result): World
    requires e.Resume? && e.call in w.calls
  {
    WithCall(WithGrant(Moved(w, t, w.now), support, e.call, payload, e.newId, r, w.now), e.call, Ended(s))
  }

  ghost function IssueStep(c: Config, support: bool, w: World, e: Event, s: Call, payload: Payload): World
    requires e.Resume? && e.call in w.calls
  {
    var (t', r) := IssueResult(c, support, w.tables, w.now, s.req.owner, s.req.action, payload,
                               e.newId, e.newAnswer, NoError);
    Issued(w, support, e, s, payload, t', r)
  }

  /** A replacement is linked to the challenge answered if that was the caller's own. */
  function Reissued(w: World, support: bool, e: Event, s: Call, payload: Payload, t: Tables, r: Result,
                    why: Option<VerifyOutcome>): World
    requires e.Resume? && e.call in w.calls && s.req.challengeId.Some?
  {
    var w1 := Issued(w, support, e, s, payload, t, r);
    if r.Required? && why.Some? then WithLink(w1, e.newId, Link(s.req.challengeId.value, why.value)) else w1
  }

  /** A verification that left the tables `t` ends the call or authorises its request. */
  function Settle(w: World, e: Event, s: Call, t: Tables, pass: bool): World
    requires e.Resume? && e.call in w.calls && s.req.challengeId.Some?
  {
    var w1 := Moved(w, t, e.later);
    if pass then
      WithCall(w1.(spent := w.spent[s.req.challengeId.value := Spend(e.call, w.now)]), e.call, s.(phase := Authorised))
    else WithCall(w1, e.call, Ended(s))
  }

  ghost function Replace(c: Config, support: bool, w: World, e: Event, s: Call, payload: Payload,
                         error: Error, why: Option<VerifyOutcome>): World
    requires e.Resume? && e.call in w.calls && s.req.challengeId.Some?
  {
    var issued := IssueResult(c, support, w.tables, w.now, s.req.owner, s.req.action, payload,
                              e.newId, e.newAnswer, error);
    Reissued(w, support, e, s, payload, issued.0, issued.1, why)
  }

  /** What the call makes of a verification that left the tables `t`. */
  ghost function AfterVerify(c: Config, support: bool, w: World, e: Event, s: Call, payload: Payload,
                             t: Tables, verdict: Verdict, why: Option<VerifyOutcome>): World
    requires e.Resume? && e.call in w.calls && s.req.challengeId.Some?
  {
    if verdict.Reissue? then Replace(c, support, Moved(w, t, e.later), e, s, payload, verdict.error, why)
    else Settle(w, e, s, t, verdict.Pass?)
  }

  ghost function VerifyStep(c: Config, support: bool, w: World, e: Event, s: Call, payload: Payload): World
    requires e.Resume? && e.call in w.calls && s.req.challengeId.Some? && s.req.answer.Some?
  {
    var id := s.req.challengeId.value;
    var (t, outcome) := Verify(c, w.tables, w.now, s.req.owner, s.req.action, payload, id,
                               Answers.Normalize(s.req.answer.value));
    var key := WriteOperationId(support, id, payload.operationId);
    var verdict := Triage(outcome, key, s.req.action != "create_post");
    AfterVerify(c, support, w, e, s, payload, t, verdict,
                if OwnAnswer(c, w.tables, w.now, s.req) then Some(outcome) else None)
  }

  /** The board list a call looks its target up in. */
  function ListFor(w: World, call: nat): seq<Boards.Board> {
    if call in w.boards then w.boards[call].boards else []
  }

  /** A post by board id invalidates the cached list and starts a load of its own. */
  function FetchList(w: World, call: nat): World
    requires call in w.calls
  {
    var s := w.calls[call];
    if !s.phase.Preparing? || !s.req.target.ByBoard? || call in w.fetches then w
    else w.(fetches := w.fetches[call := BoardLoads.LoadId(|w.trace|)],
            trace := w.trace + [BoardLoads.Open(s.req.owner, true)])
  }

  function ReceiveList(w: World, call: nat, boards: seq<Boards.Board>): World
    requires call in w.calls
  {
    if call !in w.fetches || call in w.boards || !w.calls[call].phase.Preparing? then w
    else w.(boards := w.boards[call := Listing(w.fetches[call], |w.trace|, boards)],
            trace := w.trace + [BoardLoads.Deliver(w.fetches[call], boards)])
  }

  /** Anything else that happens to the cache; nobody else delivers the answer to a call's load. */
  function OtherLoad(w: World, e: BoardLoads.Event): World {
    if e.Deliver? && e.id in w.fetches.Values then w else w.(trace := w.trace + [e])
  }

  /** The part of a call between its last preparing await and its HTTP request: no await inside.
      The new id is a fresh UUID. */
  ghost function ResumeCall(c: Config, support: bool, w: World, e: Event): World
    requires e.Resume? && e.call in w.calls
  {
    var s := w.calls[e.call];
    var url := ResolveTarget(s.req.target, ListFor(w, e.call));
    if !s.phase.Preparing? || e.later < w.now || e.newId == "" || e.newId in w.grants
       || (s.req.target.ByBoard? && e.call !in w.boards) then w
    else if url.None? then WithCall(w, e.call, Ended(s))
    else
      var s1 := s.(url := url);
      var payload := PayloadOf(support, s.req, url.value);
      if s.req.challengeId.None? then IssueStep(c, support, w, e, s1, payload)
      else if s.req.answer.Some? then VerifyStep(c, support, w, e, s1, payload)
      else w
  }

  function Flying(s: Call): Call {
    s.(phase := InFlight)
  }

  /** The request an authorised call sends. */
  function Sent(support: bool, w: World, s: Call, call: nat): Send
    requires s.req.challengeId.Some? && s.url.Some?
  {
    Send(call, s.req.challengeId.value, s.req.owner, s.req.action, PayloadOf(support, s.req, s.url.value), s.url.value,
         WriteOperationId(support, s.req.challengeId.value, s.req.supplied), w.now)
  }

  function WithSend(w: World, s: Send): World {
    w.(sends := w.sends + [s])
  }

  function TransmitCall(support: bool, w: World, call: nat): World
    requires call in w.calls
  {
    var s := w.calls[call];
    if !s.phase.Authorised? || s.req.challengeId.None? || s.url.None? then w
    else WithSend(WithCall(w, call, Flying(s)), Sent(support, w, s, call))
  }

  function RespondCall(w: World, e: Event): World
    requires e.Respond? && e.call in w.calls
  {
    var s := w.calls[e.call];
    if !s.phase.InFlight? then w
    else if RequestLoop.IsServerError(e.reply)
            && RequestLoop.Retries(RequestLoop.SafeToRetry("POST"), s.retried, e.remaining) then
      WithCall(w, e.call, s.(phase := Authorised, retried := true))
    else WithCall(w, e.call, Ended(s))
  }

  ghost function Apply(c: Config, support: bool, w: World, e: Event): World {
    match e
    case Tick(dt) => if dt >= 0.0 then Moved(w, w.tables, w.now + dt) else w
    case Start(call, req) =>
      if call in w.calls || !Accepted(support, req) then w else WithCall(w, call, Begun(w, req))
    case Abort(call) => if call in w.calls then WithCall(w, call, Ended(w.calls[call])) else w
    case Fetch(call) => if call in w.calls then FetchList(w, call) else w
    case Listed(call, boards) => if call in w.calls then ReceiveList(w, call, boards) else w
    case Cache(event) => OtherLoad(w, event)
    case Resume(call, _, _, _) => if call in w.calls then ResumeCall(c, support, w, e) else w
    case Transmit(call) => if call in w.calls then TransmitCall(support, w, call) else w
    case Respond(call, _, _) => if call in w.calls then RespondCall(w, e) else w
  }

  /** Every interleaving is some sequence of events; disabled ones change nothing. */
  ghost function Run(c: Config, support: bool, events: seq<Event>): World {
    if events == [] then START
    else Apply(c, support, Run(c, support, events[..|events| - 1]), events[|events| - 1])
  }

  // ---- Invariant ----

  /** The table holds a challenge as it was issued. */
  ghost predicate RecordGranted(c: Config, w: World, id: Id) {
    id in w.tables.records ==>
      var r := w.tables.records[id];
      && id in w.grants
      && r.owner == w.grants[id].owner && r.action == w.grants[id].action && r.payload == w.grants[id].payload
      && r.expiresAt == w.grants[id].at + c.expires as real
      && (id in w.spent ==> r.status.Used?)
  }

  ghost predicate SpendGranted(c: Config, w: World, id: Id) {
    id in w.spent ==>
      && id in w.grants
      && w.grants[id].at <= w.spent[id].at < w.grants[id].at + c.expires as real
      && w.spent[id].at <= w.now
  }

  /** A call past verification consumed the challenge it answers, in the same context. */
  ghost predicate CallGranted(support: bool, w: World, call: nat) {
    call in w.calls && (w.calls[call].phase.Authorised? || w.calls[call].phase.InFlight?) ==>
      var s := w.calls[call];
      && s.req.challengeId.Some? && s.req.challengeId.value in w.spent
      && w.spent[s.req.challengeId.value].call == call
      && s.req.challengeId.value in w.grants
      && var g := w.grants[s.req.challengeId.value];
      && s.url.Some? && g.owner == s.req.owner && g.action == s.req.action
      && g.payload == PayloadOf(support, s.req, s.url.value)
  }

  ghost predicate SendGranted(support: bool, w: World, i: nat) {
    i < |w.sends| ==>
      var s := w.sends[i];
      && s.call in w.calls && !w.calls[s.call].phase.Preparing? && !w.calls[s.call].phase.Authorised?
      && s.challenge in w.spent && w.spent[s.challenge].call == s.call && w.spent[s.challenge].at <= s.at
      && s.challenge in w.grants
      && var g := w.grants[s.challenge];
      && g.owner == s.owner && g.action == s.action && g.payload == s.payload && s.key == s.payload.operationId
      && w.calls[s.call].req.challengeId == Some(s.challenge)
      && w.calls[s.call].req.owner == s.owner && w.calls[s.call].req.action == s.action
      && s.payload == PayloadOf(support, w.calls[s.call].req, s.url)
      && w.calls[s.call].url == Some(s.url)
  }

  /** The issuing call resolved the same target to the address the grant is bound to. */
  ghost predicate GrantResolved(support: bool, w: World, id: Id) {
    id in w.grants ==>
      var g := w.grants[id];
      && g.at <= w.now
      && g.issuer in w.calls && w.calls[g.issuer].phase.Done?
      && var r := w.calls[g.issuer].req;
      && Accepted(support, r)
      && r.owner == g.owner && r.action == g.action
      && var url := w.calls[g.issuer].url;
      && url.Some? && g.payload.fields == PayloadOf(support, r, url.value).fields
  }

  /** What a link says: whose challenge was replaced, that it is over, and under which key the
      replacement stands. Only a mismatch changes the action or the payload. */
  ghost predicate ParentKept(support: bool, w: World, id: Id) {
    id in w.parent ==>
      var Link(former, why) := w.parent[id];
      && id in w.grants && former in w.grants && w.grants[id].owner == w.grants[former].owner
      && former !in w.spent && (former in w.tables.records ==> w.tables.records[former].status in {Expired, Failed})
      && why in {HasExpired, WrongAnswer, ContextMismatch}
      && (why.ContextMismatch? <==> !SameContext(w.grants[id], w.grants[former].action, w.grants[former].payload))
      && var call := w.grants[id].issuer;
      && call in w.calls && w.calls[call].req.challengeId == Some(former)
      && w.grants[id].payload.operationId == WriteOperationId(support, former, w.calls[call].req.supplied)
  }

  predicate SameContext(g: Grant, action: string, payload: Payload) {
    g.action == action && g.payload == payload
  }

  ghost predicate Inv(c: Config, support: bool, w: World) {
    && (forall id :: RecordGranted(c, w, id))
    && (forall id :: SpendGranted(c, w, id))
    && (forall call :: CallGranted(support, w, call))
    && (forall call :: call in w.calls ==> Accepted(support, w.calls[call].req))
    && (forall i :: SendGranted(support, w, i))
    && (forall i, j :: 0 <= i < j < |w.sends| ==> w.sends[i].call != w.sends[j].call)
    && (forall id :: GrantResolved(support, w, id))
    && (forall id :: ParentKept(support, w, id))
  }

  // ---- How one step changes the records ----

  /** Records only disappear or finish; what is used, expired or failed stays so; nothing becomes used. */
  ghost predicate Evolves(t: Tables, t': Tables) {
    forall id :: id in t'.records ==>
      && id in t.records
      && var a, b := t.records[id], t'.records[id];
      && b.owner == a.owner && b.action == a.action && b.payload == a.payload && b.expiresAt == a.expiresAt
      && (a.status.Pending? || b.status == a.status)
      && (b.status.Used? ==> a.status.Used?)
  }

  lemma CleanupEvolves(c: Config, t: Tables, now: real)
    ensures Evolves(t, Cleanup(c, t, now))
  {
  }

  lemma EvolvesTransitive(t: Tables, t': Tables, t'': Tables)
    requires Evolves(t, t') && Evolves(t', t'')
    ensures Evolves(t, t'')
  {
  }

  lemma IssueRecords(c: Config, t: Tables, now: real, k: Owner, action: string, payload: Payload,
                     id: Id, answer: string)
    ensures var (t', outcome) := Issue(c, t, now, k, action, payload, id, answer);
            var clean := Cleanup(c, t, now);
            t'.records == if outcome.Issued? then clean.records[id := NewRecord(c, now, k, action, payload, answer)]
                          else clean.records
  {
  }

  lemma VerifyRecords(c: Config, t: Tables, now: real, k: Owner, action: string, payload: Payload,
                      id: Id, answer: Option<string>)
    ensures var (t', outcome) := Verify(c, t, now, k, action, payload, id, answer);
            var clean := Cleanup(c, t, now);
            if outcome.Verified? then
              && id in clean.records
              && var r := clean.records[id];
              && r.status.Pending? && r.owner == k && r.action == action && r.payload == payload
              && t'.records == clean.records[id := r.Finish(Used, now)]
            else
              || t'.records == clean.records
              || (id in clean.records && clean.records[id].status.Pending?
                  && t'.records == clean.records[id := clean.records[id].Finish(Failed, now)])
  {
    var clean := Cleanup(c, t, now);
    if id in clean.records {
      JudgeRecords(c, clean, now, k, action, payload, id, answer);
    }
  }

  lemma JudgeRecords(c: Config, t: Tables, now: real, k: Owner, action: string, payload: Payload,
                     id: Id, answer: Option<string>)
    requires id in t.records
    ensures var (t', outcome) := Judge(c, t, now, k, action, payload, id, answer);
            var r := t.records[id];
            if outcome.Verified? then
              && r.status.Pending? && r.owner == k && r.action == action && r.payload == payload
              && t'.records == t.records[id := r.Finish(Used, now)]
            else
              || t'.records == t.records
              || (r.status.Pending? && t'.records == t.records[id := r.Finish(Failed, now)])
  {
  }

  lemma RefusedEvolves(c: Config, t: Tables, now: real, k: Owner, action: string, payload: Payload,
                       id: Id, answer: Option<string>)
    requires !Verify(c, t, now, k, action, payload, id, answer).1.Verified?
    ensures Evolves(t, Verify(c, t, now, k, action, payload, id, answer).0)
  {
    VerifyRecords(c, t, now, k, action, payload, id, answer);
    CleanupEvolves(c, t, now);
    var clean, t' := Cleanup(c, t, now), Verify(c, t, now, k, action, payload, id, answer).0;
    assert Evolves(clean, t');
    EvolvesTransitive(t, clean, t');
  }

  /** A challenge of the caller's own that an answer leads to replace is over, and was answered in its
      own context unless a mismatch was found. */
  lemma OwnIsFinished(c: Config, t: Tables, now: real, r: Request, payload: Payload, answer: Option<string>)
    requires OwnAnswer(c, t, now, r)
    requires Verify(c, t, now, r.owner, r.action, payload, r.challengeId.value, answer).1
          in {HasExpired, WrongAnswer, ContextMismatch}
    ensures var (t', outcome) := Verify(c, t, now, r.owner, r.action, payload, r.challengeId.value, answer);
            && r.challengeId.value in t'.records
            && Finished(t'.records[r.challengeId.value], r.owner, r.action, payload, outcome)
  {
    JudgeOwn(c, Cleanup(c, t, now), now, r.owner, r.action, payload, r.challengeId.value, answer);
  }

  predicate Finished(r: Record, k: Owner, action: string, payload: Payload, why: VerifyOutcome) {
    && r.owner == k && r.status in {Expired, Failed}
    && (why.ContextMismatch? <==> !(r.action == action && r.payload == payload))
  }

  lemma JudgeOwn(c: Config, t: Tables, now: real, k: Owner, action: string, payload: Payload,
                 id: Id, answer: Option<string>)
    requires id in t.records && t.records[id].owner == k
    requires Judge(c, t, now, k, action, payload, id, answer).1 in {HasExpired, WrongAnswer, ContextMismatch}
    ensures var (t', outcome) := Judge(c, t, now, k, action, payload, id, answer);
            id in t'.records && Finished(t'.records[id], k, action, payload, outcome)
  {
  }

  // ---- The invariant under each kind of change ----

  lemma TablesStep(c: Config, support: bool, w: World, t': Tables, later: real)
    requires Inv(c, support, w) && Evolves(w.tables, t') && w.now <= later
    ensures Inv(c, support, Moved(w, t', later))
  {
    var w' := Moved(w, t', later);
    forall id
      ensures RecordGranted(c, w', id) && SpendGranted(c, w', id)
      ensures GrantResolved(support, w', id) && ParentKept(support, w', id)
    {
      assert RecordGranted(c, w, id) && SpendGranted(c, w, id);
      assert GrantResolved(support, w, id) && ParentKept(support, w, id);
    }
    forall call ensures CallGranted(support, w', call) {
      assert CallGranted(support, w, call);
    }
    forall i ensures SendGranted(support, w', i) {
      assert SendGranted(support, w, i);
    }
  }

  /** A call that moves on leaves what is said of issued challenges as it is. */
  lemma GrantsAfterCall(support: bool, w: World, call: nat, s: Call)
    requires (forall id :: GrantResolved(support, w, id)) && (forall id :: ParentKept(support, w, id))
    requires call in w.calls && s.req == w.calls[call].req
    requires w.calls[call].phase.Done? ==> s.phase.Done? && s.url == w.calls[call].url
    ensures forall id :: GrantResolved(support, WithCall(w, call, s), id) && ParentKept(support, WithCall(w, call, s), id)
  {
    forall id ensures GrantResolved(support, WithCall(w, call, s), id) && ParentKept(support, WithCall(w, call, s), id) {
      assert GrantResolved(support, w, id) && ParentKept(support, w, id);
    }
  }

  /** Ending one call keeps everybody's evidence. */
  lemma CallStep(c: Config, support: bool, w: World, call: nat, s: Call)
    requires Inv(c, support, w) && call in w.calls && s.req == w.calls[call].req && s.phase.Done?
    requires s.url == w.calls[call].url || w.calls[call].phase.Preparing?
    ensures Inv(c, support, WithCall(w, call, s))
  {
    var w' := WithCall(w, call, s);
    GrantsAfterCall(support, w, call, s);
    forall id ensures RecordGranted(c, w', id) && SpendGranted(c, w', id) {
      assert RecordGranted(c, w, id) && SpendGranted(c, w, id);
    }
    forall k ensures CallGranted(support, w', k) {
      assert CallGranted(support, w, k);
    }
    forall i ensures SendGranted(support, w', i) {
      assert SendGranted(support, w, i);
    }
  }

  /** So does sending its request. */
  lemma FlyStep(c: Config, support: bool, w: World, call: nat)
    requires Inv(c, support, w) && call in w.calls && w.calls[call].phase.Authorised?
    ensures Inv(c, support, WithCall(w, call, Flying(w.calls[call])))
  {
    var w' := WithCall(w, call, Flying(w.calls[call]));
    GrantsAfterCall(support, w, call, Flying(w.calls[call]));
    forall id ensures RecordGranted(c, w', id) && SpendGranted(c, w', id) {
      assert RecordGranted(c, w, id) && SpendGranted(c, w, id);
    }
    forall k ensures CallGranted(support, w', k) {
      assert CallGranted(support, w, k);
    }
    forall i ensures SendGranted(support, w', i) {
      assert SendGranted(support, w, i);
    }
  }

  /** A cleanup or a refusal, and the end of the call. */
  lemma EndStep(c: Config, support: bool, w: World, call: nat, s: Call, t: Tables, later: real)
    requires Inv(c, support, w) && call in w.calls && w.now <= later
    requires s.req == w.calls[call].req && s.phase.Done? && Evolves(w.tables, t)
    requires s.url == w.calls[call].url || w.calls[call].phase.Preparing?
    ensures Inv(c, support, WithCall(Moved(w, t, later), call, s))
  {
    TablesStep(c, support, w, t, later);
    CallStep(c, support, Moved(w, t, later), call, s);
  }

  /** Nothing here depends on the board cache. */
  lemma CacheStep(c: Config, support: bool, w: World, w': World)
    requires Inv(c, support, w)
    requires w' == w.(trace := w'.trace, fetches := w'.fetches, boards := w'.boards)
    ensures Inv(c, support, w')
  {
    forall id
      ensures RecordGranted(c, w', id) && SpendGranted(c, w', id)
      ensures GrantResolved(support, w', id) && ParentKept(support, w', id)
    {
      assert RecordGranted(c, w, id) && SpendGranted(c, w, id);
      assert GrantResolved(support, w, id) && ParentKept(support, w, id);
    }
    forall k ensures CallGranted(support, w', k) {
      assert CallGranted(support, w, k);
    }
    forall i ensures SendGranted(support, w', i) {
      assert SendGranted(support, w, i);
    }
  }

  lemma StartStep(c: Config, support: bool, w: World, call: nat, req: Request)
    requires Inv(c, support, w) && call !in w.calls && Accepted(support, req)
    ensures Inv(c, support, WithCall(w, call, Begun(w, req)))
  {
    var w' := WithCall(w, call, Begun(w, req));
    forall id
      ensures RecordGranted(c, w', id) && SpendGranted(c, w', id)
      ensures GrantResolved(support, w', id) && ParentKept(support, w', id)
    {
      assert RecordGranted(c, w, id) && SpendGranted(c, w, id);
      assert GrantResolved(support, w, id) && ParentKept(support, w, id);
    }
    forall k ensures CallGranted(support, w', k) {
      assert CallGranted(support, w, k);
    }
    forall i ensures SendGranted(support, w', i) {
      assert SendGranted(support, w, i);
    }
  }

  /** A fresh challenge enters the table and the list of grants together. */
  lemma GrantStep(c: Config, support: bool, w: World, id: Id, g: Grant, r: Record)
    requires Inv(c, support, w) && id !in w.grants
    requires r.owner == g.owner && r.action == g.action && r.payload == g.payload
    requires r.expiresAt == g.at + c.expires as real && g.at <= w.now
    requires GrantResolved(support, w.(grants := w.grants[id := g]), id)
    ensures Inv(c, support, w.(grants := w.grants[id := g], tables := WithRecord(w.tables, id, r)))
  {
    var w' := w.(grants := w.grants[id := g], tables := WithRecord(w.tables, id, r));
    assert SpendGranted(c, w, id) && ParentKept(support, w, id);
    forall i
      ensures RecordGranted(c, w', i) && SpendGranted(c, w', i)
      ensures GrantResolved(support, w', i) && ParentKept(support, w', i)
    {
      assert RecordGranted(c, w, i) && SpendGranted(c, w, i);
      assert GrantResolved(support, w, i) && ParentKept(support, w, i);
    }
    forall k ensures CallGranted(support, w', k) {
      assert CallGranted(support, w, k);
    }
    forall i ensures SendGranted(support, w', i) {
      assert SendGranted(support, w, i);
    }
  }

  /** A pending challenge is consumed by the call that answered it. */
  lemma SpendStep(c: Config, support: bool, w: World, call: nat, id: Id, later: real)
    requires Inv(c, support, w) && w.now <= later
    requires id in w.tables.records && w.tables.records[id].status.Pending? && w.now < w.tables.records[id].expiresAt
    ensures Inv(c, support, w.(tables := WithRecord(w.tables, id, w.tables.records[id].Finish(Used, w.now)),
                               now := later, spent := w.spent[id := Spend(call, w.now)]))
  {
    var w' := w.(tables := WithRecord(w.tables, id, w.tables.records[id].Finish(Used, w.now)),
                 now := later, spent := w.spent[id := Spend(call, w.now)]);
    assert RecordGranted(c, w, id) && GrantResolved(support, w, id);
    forall i
      ensures RecordGranted(c, w', i) && SpendGranted(c, w', i)
      ensures GrantResolved(support, w', i) && ParentKept(support, w', i)
    {
      assert RecordGranted(c, w, i) && SpendGranted(c, w, i);
      assert GrantResolved(support, w, i) && ParentKept(support, w, i);
    }
    forall k ensures CallGranted(support, w', k) {
      assert CallGranted(support, w, k);
    }
    forall i ensures SendGranted(support, w', i) {
      assert SendGranted(support, w, i);
    }
  }

  /** A consumed challenge authorises exactly the call that consumed it. */
  lemma AuthoriseStep(c: Config, support: bool, w: World, call: nat, s: Call)
    requires Inv(c, support, w) && call in w.calls && w.calls[call].phase.Preparing?
    requires s.phase.Authorised? && s.req == w.calls[call].req && s.req.challengeId.Some?
    requires s.req.challengeId.value in w.spent && w.spent[s.req.challengeId.value].call == call
    requires s.req.challengeId.value in w.grants
    requires var g := w.grants[s.req.challengeId.value];
             s.url.Some? && g.owner == s.req.owner && g.action == s.req.action
             && g.payload == PayloadOf(support, s.req, s.url.value)
    ensures Inv(c, support, WithCall(w, call, s))
  {
    var w' := WithCall(w, call, s);
    GrantsAfterCall(support, w, call, s);
    forall id ensures RecordGranted(c, w', id) && SpendGranted(c, w', id) {
      assert RecordGranted(c, w, id) && SpendGranted(c, w, id);
    }
    forall k ensures CallGranted(support, w', k) {
      assert CallGranted(support, w, k);
    }
    forall i ensures SendGranted(support, w', i) {
      assert SendGranted(support, w, i);
    }
  }

  lemma ParentStep(c: Config, support: bool, w: World, id: Id, link: Link)
    requires Inv(c, support, w)
    requires ParentKept(support, WithLink(w, id, link), id)
    ensures Inv(c, support, WithLink(w, id, link))
  {
    var w' := WithLink(w, id, link);
    forall i
      ensures RecordGranted(c, w', i) && SpendGranted(c, w', i)
      ensures GrantResolved(support, w', i) && ParentKept(support, w', i)
    {
      assert RecordGranted(c, w, i) && SpendGranted(c, w, i);
      assert GrantResolved(support, w, i) && ParentKept(support, w, i);
    }
    forall k ensures CallGranted(support, w', k) {
      assert CallGranted(support, w, k);
    }
    forall i ensures SendGranted(support, w', i) {
      assert SendGranted(support, w, i);
    }
  }

  // ---- The invariant under each event ----

  /** What issuing did to the records. */
  ghost predicate IssueFacts(c: Config, support: bool, t: Tables, now: real, s: Call, payload: Payload, e: Event,
                             t': Tables, r: Result)
    requires e.Resume?
  {
    var clean := Cleanup(c, t, now).records;
    if r.Required? then
      t'.records == clean[e.newId := NewRecord(c, now, s.req.owner, s.req.action, Rebound(support, e.newId, payload),
                                               e.newAnswer)]
    else t'.records == clean
  }

  lemma IssueFactsHold(c: Config, support: bool, t: Tables, now: real, s: Call, payload: Payload, e: Event, error: Error)
    requires e.Resume?
    ensures var (t', r) := IssueResult(c, support, t, now, s.req.owner, s.req.action, payload, e.newId, e.newAnswer, error);
            IssueFacts(c, support, t, now, s, payload, e, t', r)
  {
    IssueRecords(c, t, now, s.req.owner, s.req.action, Rebound(support, e.newId, payload), e.newId, e.newAnswer);
  }

  /** Issuing, at the end of a call that has resolved its target. */
  lemma IssuedKeeps(c: Config, support: bool, w: World, e: Event, s: Call, payload: Payload, t: Tables, r: Result)
    requires Inv(c, support, w) && e.Resume? && e.call in w.calls && s.req == w.calls[e.call].req
    requires e.newId !in w.grants && w.calls[e.call].phase.Preparing?
    requires s.url.Some? && payload.fields == PayloadOf(support, s.req, s.url.value).fields
    requires IssueFacts(c, support, w.tables, w.now, s, payload, e, t, r)
    ensures Inv(c, support, Issued(w, support, e, s, payload, t, r))
  {
    var clean := Cleanup(c, w.tables, w.now);
    var w1 := WithCall(Moved(w, Tables(clean.records, t.owners), w.now), e.call, Ended(s));
    assert Inv(c, support, w1) by {
      CleanupEvolves(c, w.tables, w.now);
      EndStep(c, support, w, e.call, Ended(s), Tables(clean.records, t.owners), w.now);
    }
    if r.Required? {
      var bound := Rebound(support, e.newId, payload);
      GrantStep(c, support, w1, e.newId, Grant(s.req.owner, s.req.action, bound, w.now, e.call),
                NewRecord(c, w.now, s.req.owner, s.req.action, bound, e.newAnswer));
    } else {
      assert t == w1.tables;
    }
  }

  /** Consuming a record that a cleanup leaves pending. */
  lemma SpendPending(c: Config, support: bool, w: World, call: nat, s: Call, id: Id, later: real, t': Tables)
    requires Inv(c, support, w) && call in w.calls && w.calls[call].phase.Preparing? && w.now <= later
    requires s.phase.Authorised? && s.req == w.calls[call].req && s.req.challengeId == Some(id)
    requires s.url.Some?
    requires Passed(Cleanup(c, w.tables, w.now), t', w.now, s.req, PayloadOf(support, s.req, s.url.value))
    ensures Inv(c, support,
              WithCall(w.(tables := t', now := later, spent := w.spent[id := Spend(call, w.now)]), call, s))
  {
    var clean := Cleanup(c, w.tables, w.now);
    var w1 := w.(tables := Tables(clean.records, t'.owners));
    assert Inv(c, support, w1) by {
      CleanupEvolves(c, w.tables, w.now);
      TablesStep(c, support, w, w1.tables, w.now);
    }
    assert RecordGranted(c, w1, id);
    var w2 := w1.(tables := t', now := later, spent := w.spent[id := Spend(call, w.now)]);
    assert Inv(c, support, w2) by {
      assert clean.records[id].expiresAt > w.now;
      SpendStep(c, support, w1, call, id, later);
      assert t' == WithRecord(w1.tables, id, w1.tables.records[id].Finish(Used, w.now));
    }
    AuthoriseStep(c, support, w2, call, s);
  }

  /** A replacement is bound to the very payload of the challenge it replaces, key included. */
  lemma ReissuedPayload(support: bool, r: Request, url: string, newId: Id)
    requires Accepted(support, r) && r.challengeId.Some?
    ensures var payload := PayloadOf(support, r, url);
            Rebound(support, newId, payload) == payload
  {
    assert support ==> IsUuid(WriteOperationId(support, r.challengeId.value, r.supplied).value);
    assert !IsUuid("");
  }

  ghost predicate LinkFacts(s: Call, payload: Payload, t: Tables, why: VerifyOutcome)
    requires s.req.challengeId.Some?
  {
    var id := s.req.challengeId.value;
    && why in {HasExpired, WrongAnswer, ContextMismatch}
    && id in t.records && Finished(t.records[id], s.req.owner, s.req.action, payload, why)
  }

  /** The pending challenge answered was consumed, in its own context. */
  ghost predicate Passed(clean: Tables, t: Tables, now: real, req: Request, payload: Payload)
    requires req.challengeId.Some?
  {
    var id := req.challengeId.value;
    && id in clean.records
    && var r := clean.records[id];
    && r.status.Pending? && r.owner == req.owner && r.action == req.action && r.payload == payload
    && t.records == clean.records[id := r.Finish(Used, now)]
  }

  /** What the rest of the step needs to know about the verification. */
  ghost predicate VerifyFacts(c: Config, w: World, s: Call, payload: Payload,
                              t: Tables, verdict: Verdict, why: Option<VerifyOutcome>)
    requires s.req.challengeId.Some?
  {
    && (verdict.Pass? ==> Passed(Cleanup(c, w.tables, w.now), t, w.now, s.req, payload))
    && (!verdict.Pass? ==> Evolves(w.tables, t))
    && (verdict.Reissue? && why.Some? ==> LinkFacts(s, payload, t, why.value))
  }

  lemma FactsHold(c: Config, w: World, s: Call, payload: Payload, key: Option<string>)
    requires s.req.challengeId.Some? && s.req.answer.Some?
    ensures var (t, outcome) := Verify(c, w.tables, w.now, s.req.owner, s.req.action, payload,
                                       s.req.challengeId.value, Answers.Normalize(s.req.answer.value));
            VerifyFacts(c, w, s, payload, t, Triage(outcome, key, s.req.action != "create_post"),
                        if OwnAnswer(c, w.tables, w.now, s.req) then Some(outcome) else None)
  {
    var id, answer := s.req.challengeId.value, Answers.Normalize(s.req.answer.value);
    var (t, outcome) := Verify(c, w.tables, w.now, s.req.owner, s.req.action, payload, id, answer);
    if outcome.Verified? {
      PassFacts(c, w.tables, w.now, s.req, payload, answer);
    } else {
      RefusedEvolves(c, w.tables, w.now, s.req.owner, s.req.action, payload, id, answer);
    }
    if OwnAnswer(c, w.tables, w.now, s.req) {
      OwnLinkFacts(c, w.tables, w.now, s, payload, answer);
    }
    FactsFrom(c, w, s, payload, t, outcome, key, OwnAnswer(c, w.tables, w.now, s.req));
  }

  lemma FactsFrom(c: Config, w: World, s: Call, payload: Payload, t: Tables, outcome: VerifyOutcome,
                  key: Option<string>, own: bool)
    requires s.req.challengeId.Some?
    requires outcome.Verified? ==> Passed(Cleanup(c, w.tables, w.now), t, w.now, s.req, payload)
    requires !outcome.Verified? ==> Evolves(w.tables, t)
    requires own && outcome in {HasExpired, WrongAnswer, ContextMismatch} ==> LinkFacts(s, payload, t, outcome)
    ensures VerifyFacts(c, w, s, payload, t, Triage(outcome, key, s.req.action != "create_post"),
                        if own then Some(outcome) else None)
  {
  }

  lemma PassFacts(c: Config, t: Tables, now: real, r: Request, payload: Payload, answer: Option<string>)
    requires r.challengeId.Some?
    requires Verify(c, t, now, r.owner, r.action, payload, r.challengeId.value, answer).1.Verified?
    ensures var t' := Verify(c, t, now, r.owner, r.action, payload, r.challengeId.value, answer).0;
            Passed(Cleanup(c, t, now), t', now, r, payload)
  {
    VerifyRecords(c, t, now, r.owner, r.action, payload, r.challengeId.value, answer);
  }

  lemma OwnLinkFacts(c: Config, t: Tables, now: real, s: Call, payload: Payload, answer: Option<string>)
    requires s.req.challengeId.Some? && OwnAnswer(c, t, now, s.req)
    ensures var (t', outcome) := Verify(c, t, now, s.req.owner, s.req.action, payload, s.req.challengeId.value, answer);
            outcome in {HasExpired, WrongAnswer, ContextMismatch} ==> LinkFacts(s, payload, t', outcome)
  {
    if Verify(c, t, now, s.req.owner, s.req.action, payload, s.req.challengeId.value, answer).1
       in {HasExpired, WrongAnswer, ContextMismatch} {
      OwnIsFinished(c, t, now, s.req, payload, answer);
    }
  }

  lemma SettleKeeps(c: Config, support: bool, w: World, e: Event, s: Call, payload: Payload,
                    t: Tables, verdict: Verdict, why: Option<VerifyOutcome>)
    requires Inv(c, support, w) && e.Resume? && w.now <= e.later && e.call in w.calls && w.calls[e.call].phase.Preparing?
    requires s.req == w.calls[e.call].req && s.req.challengeId.Some?
    requires s.url.Some? && payload == PayloadOf(support, s.req, s.url.value)
    requires !verdict.Reissue? && VerifyFacts(c, w, s, payload, t, verdict, why)
    ensures Inv(c, support, Settle(w, e, s, t, verdict.Pass?))
  {
    if verdict.Pass? {
      SpendPending(c, support, w, e.call, s.(phase := Authorised), s.req.challengeId.value, e.later, t);
    } else {
      EndStep(c, support, w, e.call, Ended(s), t, e.later);
    }
  }

  lemma ReplaceKeeps(c: Config, support: bool, w: World, e: Event, s: Call, payload: Payload, error: Error,
                     why: Option<VerifyOutcome>)
    requires Inv(c, support, w) && e.Resume? && e.call in w.calls && s.req == w.calls[e.call].req
    requires s.req.challengeId.Some? && e.newId !in w.grants && w.calls[e.call].phase.Preparing?
    requires s.url.Some? && payload == PayloadOf(support, s.req, s.url.value)
    requires why.Some? ==> LinkFacts(s, payload, w.tables, why.value)
    ensures Inv(c, support, Replace(c, support, w, e, s, payload, error, why))
  {
    var issued := IssueResult(c, support, w.tables, w.now, s.req.owner, s.req.action, payload,
                              e.newId, e.newAnswer, error);
    IssueFactsHold(c, support, w.tables, w.now, s, payload, e, error);
    ReissuedKeeps(c, support, w, e, s, payload, issued.0, issued.1, why);
  }

  lemma AfterVerifyKeeps(c: Config, support: bool, w: World, e: Event, s: Call, payload: Payload,
                         t: Tables, verdict: Verdict, why: Option<VerifyOutcome>)
    requires Inv(c, support, w) && e.Resume? && w.now <= e.later && e.call in w.calls && w.calls[e.call].phase.Preparing?
    requires s.req == w.calls[e.call].req && s.req.challengeId.Some? && e.newId !in w.grants
    requires s.url.Some? && payload == PayloadOf(support, s.req, s.url.value)
    requires VerifyFacts(c, w, s, payload, t, verdict, why)
    ensures Inv(c, support, AfterVerify(c, support, w, e, s, payload, t, verdict, why))
  {
    if verdict.Reissue? {
      var w1 := Moved(w, t, e.later);
      assert Inv(c, support, w1) by {
        TablesStep(c, support, w, t, w1.now);
      }
      ReplaceKeeps(c, support, w1, e, s, payload, verdict.error, why);
    } else {
      SettleKeeps(c, support, w, e, s, payload, t, verdict, why);
    }
  }

  lemma VerifyKeeps(c: Config, support: bool, w: World, e: Event, s: Call, payload: Payload)
    requires Inv(c, support, w) && e.Resume? && w.now <= e.later && e.call in w.calls && w.calls[e.call].phase.Preparing?
    requires s.req == w.calls[e.call].req && s.req.challengeId.Some? && s.req.answer.Some? && e.newId !in w.grants
    requires s.url.Some? && payload == PayloadOf(support, s.req, s.url.value)
    ensures Inv(c, support, VerifyStep(c, support, w, e, s, payload))
  {
    var id := s.req.challengeId.value;
    var (t, outcome) := Verify(c, w.tables, w.now, s.req.owner, s.req.action, payload, id,
                               Answers.Normalize(s.req.answer.value));
    var key := WriteOperationId(support, id, payload.operationId);
    FactsHold(c, w, s, payload, key);
    AfterVerifyKeeps(c, support, w, e, s, payload, t, Triage(outcome, key, s.req.action != "create_post"),
                     if OwnAnswer(c, w.tables, w.now, s.req) then Some(outcome) else None);
  }

  /** Issuing a replacement, and noting what it replaces if that was the caller's own. */
  lemma ReissuedKeeps(c: Config, support: bool, w: World, e: Event, s: Call, payload: Payload, t: Tables, r: Result,
                      why: Option<VerifyOutcome>)
    requires Inv(c, support, w) && e.Resume? && e.call in w.calls && s.req == w.calls[e.call].req
    requires s.req.challengeId.Some? && e.newId !in w.grants && w.calls[e.call].phase.Preparing?
    requires s.url.Some? && payload == PayloadOf(support, s.req, s.url.value)
    requires IssueFacts(c, support, w.tables, w.now, s, payload, e, t, r)
    requires why.Some? ==> LinkFacts(s, payload, w.tables, why.value)
    ensures Inv(c, support, Reissued(w, support, e, s, payload, t, r, why))
  {
    var w1 := Issued(w, support, e, s, payload, t, r);
    IssuedKeeps(c, support, w, e, s, payload, t, r);
    if r.Required? && why.Some? {
      LinkHolds(c, support, w, e, s, payload, t, r, why.value);
      ParentStep(c, support, w1, e.newId, Link(s.req.challengeId.value, why.value));
    }
  }

  /** What the new link says is so. */
  lemma LinkHolds(c: Config, support: bool, w: World, e: Event, s: Call, payload: Payload, t: Tables, r: Result,
                  why: VerifyOutcome)
    requires Inv(c, support, w) && e.Resume? && e.call in w.calls && s.req == w.calls[e.call].req
    requires s.req.challengeId.Some? && e.newId !in w.grants && r.Required?
    requires s.url.Some? && payload == PayloadOf(support, s.req, s.url.value)
    requires IssueFacts(c, support, w.tables, w.now, s, payload, e, t, r)
    requires LinkFacts(s, payload, w.tables, why)
    ensures var w1 := Issued(w, support, e, s, payload, t, r);
            ParentKept(support, WithLink(w1, e.newId, Link(s.req.challengeId.value, why)), e.newId)
  {
    var id := s.req.challengeId.value;
    assert RecordGranted(c, w, id) && Accepted(support, s.req);
    assert Rebound(support, e.newId, payload) == payload by {
      ReissuedPayload(support, s.req, s.url.value, e.newId);
    }
    var w1 := Issued(w, support, e, s, payload, t, r);
    assert w1.grants[e.newId] == Grant(s.req.owner, s.req.action, payload, w.now, e.call);
    assert id in w1.tables.records ==> w1.tables.records[id].status in {Expired, Failed} by {
      CleanupEvolves(c, w.tables, w.now);
    }
    assert w1.grants[id] == w.grants[id] && w1.calls[e.call].req == s.req;
  }

  lemma IssueKeeps(c: Config, support: bool, w: World, e: Event, s: Call, payload: Payload)
    requires Inv(c, support, w) && e.Resume? && e.call in w.calls && s.req == w.calls[e.call].req
    requires e.newId !in w.grants && w.calls[e.call].phase.Preparing?
    requires s.url.Some? && payload.fields == PayloadOf(support, s.req, s.url.value).fields
    ensures Inv(c, support, IssueStep(c, support, w, e, s, payload))
  {
    var (t', r) := IssueResult(c, support, w.tables, w.now, s.req.owner, s.req.action, payload,
                               e.newId, e.newAnswer, NoError);
    IssueFactsHold(c, support, w.tables, w.now, s, payload, e, NoError);
    IssuedKeeps(c, support, w, e, s, payload, t', r);
  }

  lemma ResumeKeeps(c: Config, support: bool, w: World, e: Event)
    requires Inv(c, support, w) && e.Resume? && e.call in w.calls
    ensures Inv(c, support, ResumeCall(c, support, w, e))
  {
    var s := w.calls[e.call];
    var url := ResolveTarget(s.req.target, ListFor(w, e.call));
    if s.phase.Preparing? && w.now <= e.later && e.newId != "" && e.newId !in w.grants
       && (s.req.target.ByBoard? ==> e.call in w.boards) {
      if url.None? {
        CallStep(c, support, w, e.call, Ended(s));
      } else {
        var s1 := s.(url := url);
        var payload := PayloadOf(support, s.req, url.value);
        if s.req.challengeId.None? {
          IssueKeeps(c, support, w, e, s1, payload);
        } else if s.req.answer.Some? {
          VerifyKeeps(c, support, w, e, s1, payload);
        }
      }
    }
  }

  /** One more request, by a call that just went into flight. */
  lemma SendStep(c: Config, support: bool, w: World, s: Send)
    requires Inv(c, support, w) && forall i :: 0 <= i < |w.sends| ==> w.sends[i].call != s.call
    requires SendGranted(support, WithSend(w, s), |w.sends|)
    ensures Inv(c, support, WithSend(w, s))
  {
    var w' := WithSend(w, s);
    forall id
      ensures RecordGranted(c, w', id) && SpendGranted(c, w', id)
      ensures GrantResolved(support, w', id) && ParentKept(support, w', id)
    {
      assert RecordGranted(c, w, id) && SpendGranted(c, w, id);
      assert GrantResolved(support, w, id) && ParentKept(support, w, id);
    }
    forall k ensures CallGranted(support, w', k) {
      assert CallGranted(support, w, k);
    }
    forall i ensures SendGranted(support, w', i) {
      assert SendGranted(support, w, i);
    }
  }

  /** A call that is authorised has sent nothing yet. */
  lemma NothingSent(support: bool, w: World, call: nat, i: nat)
    requires SendGranted(support, w, i) && i < |w.sends| && call in w.calls && w.calls[call].phase.Authorised?
    ensures w.sends[i].call != call
  {
  }

  lemma TransmitKeeps(c: Config, support: bool, w: World, call: nat)
    requires Inv(c, support, w) && call in w.calls
    ensures Inv(c, support, TransmitCall(support, w, call))
  {
    var s := w.calls[call];
    if s.phase.Authorised? && s.req.challengeId.Some? && s.url.Some? {
      var w1 := WithCall(w, call, Flying(s));
      forall i | 0 <= i < |w.sends| ensures w.sends[i].call != call {
        NothingSent(support, w, call, i);
      }
      assert Inv(c, support, w1) by {
        FlyStep(c, support, w, call);
      }
      assert CallGranted(support, w, call) && SpendGranted(c, w, s.req.challengeId.value) && Accepted(support, s.req);
      SendStep(c, support, w1, Sent(support, w, s, call));
    }
  }

  lemma RespondKeeps(c: Config, support: bool, w: World, e: Event)
    requires Inv(c, support, w) && e.Respond? && e.call in w.calls
    ensures Inv(c, support, RespondCall(w, e))
  {
    RequestLoop.WritesNeverRetry("POST", w.calls[e.call].retried, e.remaining);
    if w.calls[e.call].phase.InFlight? {
      CallStep(c, support, w, e.call, Ended(w.calls[e.call]));
    }
  }

  lemma CacheKeeps(c: Config, support: bool, w: World, e: Event)
    requires Inv(c, support, w) && (e.Fetch? || e.Listed? || e.Cache?)
    ensures Inv(c, support, Apply(c, support, w, e))
  {
    match e
    case Fetch(call) =>
      if call in w.calls {
        CacheStep(c, support, w, FetchList(w, call));
      }
    case Listed(call, boards) =>
      if call in w.calls {
        CacheStep(c, support, w, ReceiveList(w, call, boards));
      }
    case Cache(event) => CacheStep(c, support, w, OtherLoad(w, event));
  }

  lemma LifeKeeps(c: Config, support: bool, w: World, e: Event)
    requires Inv(c, support, w) && (e.Start? || e.Abort?)
    ensures Inv(c, support, Apply(c, support, w, e))
  {
    if e.Abort? {
      if e.call in w.calls {
        CallStep(c, support, w, e.call, Ended(w.calls[e.call]));
      }
    } else if e.call !in w.calls && Accepted(support, e.req) {
      StartStep(c, support, w, e.call, e.req);
    }
  }

  lemma RequestKeeps(c: Config, support: bool, w: World, e: Event)
    requires Inv(c, support, w) && (e.Transmit? || e.Respond?)
    ensures Inv(c, support, Apply(c, support, w, e))
  {
    if e.call in w.calls {
      if e.Transmit? {
        TransmitKeeps(c, support, w, e.call);
      } else {
        RespondKeeps(c, support, w, e);
      }
    }
  }

  lemma ApplyKeeps(c: Config, support: bool, w: World, e: Event)
    requires Inv(c, support, w)
    ensures Inv(c, support, Apply(c, support, w, e))
  {
    match e
    case Tick(dt) =>
      if dt >= 0.0 {
        TablesStep(c, support, w, w.tables, w.now + dt);
      }
    case Resume(call, _, _, _) =>
      if call in w.calls {
        ResumeKeeps(c, support, w, e);
      }
    case _ =>
      if e.Transmit? || e.Respond? {
        RequestKeeps(c, support, w, e);
      } else if e.Start? || e.Abort? {
        LifeKeeps(c, support, w, e);
      } else {
        CacheKeeps(c, support, w, e);
      }
  }

  lemma {:induction false} RunKeeps(c: Config, support: bool, events: seq<Event>)
    ensures Inv(c, support, Run(c, support, events))
  {
    if events != [] {
      RunKeeps(c, support, events[..|events| - 1]);
      ApplyKeeps(c, support, Run(c, support, events[..|events| - 1]), events[|events| - 1]);
    }
  }

  // ---- The guarantees ----

  /**
   At most one write per challenge. In every interleaving, the map from HTTP create requests to
   challenges is injective, and each request is for a challenge issued earlier to the same owner,
   action and payload, and consumed by that very call before it expired.
   */
  lemma AtMostOneWrite(c: Config, support: bool, events: seq<Event>, i: nat, j: nat)
    requires i < |Run(c, support, events).sends| && j < |Run(c, support, events).sends|
    ensures var w := Run(c, support, events);
            var a, b := w.sends[i], w.sends[j];
            && (i != j ==> a.challenge != b.challenge)
            && a.challenge in w.grants && a.challenge in w.spent
            && var g, spend := w.grants[a.challenge], w.spent[a.challenge];
            && g.owner == a.owner && g.action == a.action && g.payload == a.payload
            && spend.call == a.call
            && g.at <= spend.at < g.at + c.expires as real && spend.at <= a.at
  {
    var w := Run(c, support, events);
    RunKeeps(c, support, events);
    assert SendGranted(support, w, i) && SendGranted(support, w, j);
    assert SpendGranted(c, w, w.sends[i].challenge);
  }

  /** The call whose answer brought the replacement `id` effectively carried the key of the challenge
      it answered: the supplied key, else that challenge's id, is the key it was shown. */
  ghost predicate KeepsKey(support: bool, w: World, id: Id) {
    && id in w.parent && w.parent[id].id in w.grants && id in w.grants && w.grants[id].issuer in w.calls
    && WriteOperationId(support, w.parent[id].id, w.calls[w.grants[id].issuer].req.supplied)
       == w.grants[w.parent[id].id].payload.operationId
  }

  /**
   When a replacement keeps the idempotency key. It does if and only if the answering call's
   effective key was the key of the challenge replaced. After an expired or a wrong answer that is
   always so, and then the whole payload is kept; a caller that supplies the key it was shown also
   always keeps it.
   */
  lemma ReplacementKey(c: Config, support: bool, events: seq<Event>, id: Id)
    requires id in Run(c, support, events).parent
    ensures var w := Run(c, support, events);
            var Link(former, why) := w.parent[id];
            && id in w.grants && former in w.grants && w.grants[id].issuer in w.calls
            && (w.grants[id].payload.operationId == w.grants[former].payload.operationId <==> KeepsKey(support, w, id))
            && (!why.ContextMismatch? ==> KeepsKey(support, w, id) && w.grants[id].payload == w.grants[former].payload)
            && (w.calls[w.grants[id].issuer].req.supplied.Some?
                && w.calls[w.grants[id].issuer].req.supplied == w.grants[former].payload.operationId
                ==> KeepsKey(support, w, id))
  {
    var w := Run(c, support, events);
    RunKeeps(c, support, events);
    assert ParentKept(support, w, id);
    var req := w.calls[w.grants[id].issuer].req;
    assert Accepted(support, req);
    assert !IsUuid("");
  }

  /** Each challenge of the chain replaced the one before it. */
  ghost predicate IsChain(w: World, ids: seq<Id>) {
    && ids != []
    && forall i :: 1 <= i < |ids| ==> ids[i] in w.parent && w.parent[ids[i]].id == ids[i - 1]
  }

  lemma {:induction false} ChainKeepsKey(c: Config, support: bool, w: World, ids: seq<Id>)
    requires Inv(c, support, w) && IsChain(w, ids) && ids[|ids| - 1] in w.grants
    ensures ids[0] in w.grants
    ensures (forall i :: 1 <= i < |ids| ==> KeepsKey(support, w, ids[i])) ==>
              w.grants[ids[|ids| - 1]].payload.operationId == w.grants[ids[0]].payload.operationId
    ensures (forall i :: 1 <= i < |ids| ==> !w.parent[ids[i]].why.ContextMismatch?) ==>
              w.grants[ids[|ids| - 1]].payload == w.grants[ids[0]].payload
    ensures forall i :: 0 <= i < |ids| - 1 ==> ids[i] !in w.spent
  {
    if |ids| > 1 {
      var n := |ids| - 1;
      assert ParentKept(support, w, ids[n]);
      ChainKeepsKey(c, support, w, ids[..n]);
    }
  }

  /**
   The idempotency key survives reissue. Along any chain of replacements that each keep the key,
   whatever write the last challenge authorises carries the key of the first; if no link is a
   context mismatch it carries the whole payload; and no earlier challenge was ever consumed.
   */
  lemma KeyConserved(c: Config, support: bool, events: seq<Event>, ids: seq<Id>, i: nat)
    requires var w := Run(c, support, events);
             IsChain(w, ids) && i < |w.sends| && w.sends[i].challenge == ids[|ids| - 1]
    ensures var w := Run(c, support, events);
            && ids[0] in w.grants
            && ((forall n :: 1 <= n < |ids| ==> KeepsKey(support, w, ids[n])) ==>
                  w.sends[i].key == w.grants[ids[0]].payload.operationId)
            && ((forall n :: 1 <= n < |ids| ==> !w.parent[ids[n]].why.ContextMismatch?) ==>
                  w.sends[i].payload == w.grants[ids[0]].payload)
            && forall n :: 0 <= n < |ids| - 1 ==> ids[n] !in w.spent
  {
    var w := Run(c, support, events);
    RunKeeps(c, support, events);
    assert SendGranted(support, w, i);
    ChainKeepsKey(c, support, w, ids);
  }

  /** Along any chain at all, the write carries the effective key of the call that obtained the last
      challenge; so it carries the key of the first exactly if that call did. */
  lemma ChainKeyExactly(c: Config, support: bool, events: seq<Event>, ids: seq<Id>, i: nat)
    requires var w := Run(c, support, events);
             IsChain(w, ids) && |ids| > 1 && i < |w.sends| && w.sends[i].challenge == ids[|ids| - 1]
    ensures var w, n := Run(c, support, events), |ids| - 1;
            && ids[0] in w.grants && ids[n] in w.grants && w.grants[ids[n]].issuer in w.calls
            && var effective := WriteOperationId(support, ids[n - 1], w.calls[w.grants[ids[n]].issuer].req.supplied);
            && (w.sends[i].key == w.grants[ids[0]].payload.operationId
                <==> effective == w.grants[ids[0]].payload.operationId)
  {
    var w := Run(c, support, events);
    RunKeeps(c, support, events);
    assert SendGranted(support, w, i);
    assert ParentKept(support, w, ids[|ids| - 1]);
    ChainKeepsKey(c, support, w, ids);
  }

  // ---- Where the board lists come from ----

  /** A call's list is the answer to a load it forced after it started, and its target was resolved there. */
  ghost predicate ListKept(w: World, call: nat) {
    && (call in w.fetches ==>
          && call in w.calls && w.calls[call].since <= w.fetches[call].at < |w.trace|
          && w.trace[w.fetches[call].at] == BoardLoads.Open(w.calls[call].req.owner, true))
    && (call in w.boards ==>
          var l := w.boards[call];
          && call in w.fetches && l.load == w.fetches[call] && l.load.at < l.at < |w.trace|
          && w.trace[l.at] == BoardLoads.Deliver(l.load, l.boards))
    && (call in w.calls ==> w.calls[call].since <= |w.trace| && Resolved(w, call, w.calls[call].url))
  }

  /** `url` is none yet, or what the call's list gives for its target. */
  ghost predicate Resolved(w: World, call: nat, url: Option<string>)
    requires call in w.calls
  {
    url.Some? ==>
      var target := w.calls[call].req.target;
      (target.ByBoard? ==> call in w.boards) && url == ResolveTarget(target, ListFor(w, call))
  }

  ghost predicate Lists(w: World) {
    forall call :: ListKept(w, call)
  }

  /** A step that touches at most one call, and neither the cache nor what was asked for. */
  ghost predicate OneCall(w: World, w': World, call: nat)
    requires call in w.calls
  {
    && w'.trace == w.trace && w'.fetches == w.fetches && w'.boards == w.boards
    && call in w'.calls && w'.calls == w.calls[call := w'.calls[call]] && SameCall(w'.calls[call], w.calls[call])
    && (w'.calls[call].url == w.calls[call].url || Resolved(w, call, w'.calls[call].url))
  }

  lemma OneCallKeepsLists(w: World, w': World, call: nat)
    requires Lists(w) && call in w.calls && OneCall(w, w', call)
    ensures Lists(w')
  {
    forall k ensures ListKept(w', k) {
      assert ListKept(w, k);
    }
  }

  lemma IssuedIsOneCall(support: bool, w: World, e: Event, s: Call, payload: Payload, t: Tables, r: Result)
    requires e.Resume? && e.call in w.calls && SameCall(s, w.calls[e.call]) && Resolved(w, e.call, s.url)
    ensures OneCall(w, Issued(w, support, e, s, payload, t, r), e.call)
  {
  }

  lemma ReplaceIsOneCall(c: Config, support: bool, w: World, e: Event, s: Call, payload: Payload,
                         error: Error, why: Option<VerifyOutcome>)
    requires e.Resume? && e.call in w.calls && s.req.challengeId.Some?
    requires SameCall(s, w.calls[e.call]) && Resolved(w, e.call, s.url)
    ensures OneCall(w, Replace(c, support, w, e, s, payload, error, why), e.call)
  {
    var issued := IssueResult(c, support, w.tables, w.now, s.req.owner, s.req.action, payload,
                              e.newId, e.newAnswer, error);
    IssuedIsOneCall(support, w, e, s, payload, issued.0, issued.1);
  }

  lemma SettleIsOneCall(w: World, e: Event, s: Call, t: Tables, pass: bool)
    requires e.Resume? && e.call in w.calls && s.req.challengeId.Some?
    requires SameCall(s, w.calls[e.call]) && Resolved(w, e.call, s.url)
    ensures OneCall(w, Settle(w, e, s, t, pass), e.call)
  {
  }

  lemma AfterVerifyIsOneCall(c: Config, support: bool, w: World, e: Event, s: Call, payload: Payload,
                             t: Tables, verdict: Verdict, why: Option<VerifyOutcome>)
    requires e.Resume? && e.call in w.calls && s.req.challengeId.Some?
    requires SameCall(s, w.calls[e.call]) && Resolved(w, e.call, s.url)
    ensures OneCall(w, AfterVerify(c, support, w, e, s, payload, t, verdict, why), e.call)
  {
    if verdict.Reissue? {
      ReplaceIsOneCall(c, support, Moved(w, t, e.later), e, s, payload, verdict.error, why);
    } else {
      SettleIsOneCall(w, e, s, t, verdict.Pass?);
    }
  }

  lemma VerifyIsOneCall(c: Config, support: bool, w: World, e: Event, s: Call, payload: Payload)
    requires e.Resume? && e.call in w.calls && s.req.challengeId.Some? && s.req.answer.Some?
    requires SameCall(s, w.calls[e.call]) && Resolved(w, e.call, s.url)
    ensures OneCall(w, VerifyStep(c, support, w, e, s, payload), e.call)
  {
    var id := s.req.challengeId.value;
    var (t, outcome) := Verify(c, w.tables, w.now, s.req.owner, s.req.action, payload, id,
                               Answers.Normalize(s.req.answer.value));
    var key := WriteOperationId(support, id, payload.operationId);
    AfterVerifyIsOneCall(c, support, w, e, s, payload, t, Triage(outcome, key, s.req.action != "create_post"),
                         if OwnAnswer(c, w.tables, w.now, s.req) then Some(outcome) else None);
  }

  lemma IssueIsOneCall(c: Config, support: bool, w: World, e: Event, s: Call, payload: Payload)
    requires e.Resume? && e.call in w.calls
    requires SameCall(s, w.calls[e.call]) && Resolved(w, e.call, s.url)
    ensures OneCall(w, IssueStep(c, support, w, e, s, payload), e.call)
  {
    var (t', r) := IssueResult(c, support, w.tables, w.now, s.req.owner, s.req.action, payload,
                               e.newId, e.newAnswer, NoError);
    IssuedIsOneCall(support, w, e, s, payload, t', r);
  }

  lemma ResumeKeepsLists(c: Config, support: bool, w: World, e: Event)
    requires Lists(w) && e.Resume? && e.call in w.calls
    ensures Lists(ResumeCall(c, support, w, e))
  {
    var s := w.calls[e.call];
    var url := ResolveTarget(s.req.target, ListFor(w, e.call));
    var w' := ResumeCall(c, support, w, e);
    if w' != w {
      if url.Some? {
        if s.req.challengeId.None? {
          IssueIsOneCall(c, support, w, e, s.(url := url), PayloadOf(support, s.req, url.value));
        } else if s.req.answer.Some? {
          VerifyIsOneCall(c, support, w, e, s.(url := url), PayloadOf(support, s.req, url.value));
        }
      }
      OneCallKeepsLists(w, w', e.call);
    }
  }

  /** What happens to the cache. */
  lemma CacheKeepsLists(c: Config, support: bool, w: World, e: Event)
    requires Lists(w) && (e.Fetch? || e.Listed? || e.Cache?)
    ensures Lists(Apply(c, support, w, e))
  {
    var w' := Apply(c, support, w, e);
    forall k ensures ListKept(w', k) {
      assert ListKept(w, k);
    }
  }

  lemma AbortKeepsLists(w: World, call: nat)
    requires Lists(w) && call in w.calls
    ensures Lists(WithCall(w, call, Ended(w.calls[call])))
  {
    OneCallKeepsLists(w, WithCall(w, call, Ended(w.calls[call])), call);
  }

  lemma TransmitKeepsLists(support: bool, w: World, call: nat)
    requires Lists(w) && call in w.calls
    ensures Lists(TransmitCall(support, w, call))
  {
    OneCallKeepsLists(w, TransmitCall(support, w, call), call);
  }

  lemma RespondKeepsLists(w: World, e: Event)
    requires Lists(w) && e.Respond? && e.call in w.calls
    ensures Lists(RespondCall(w, e))
  {
    OneCallKeepsLists(w, RespondCall(w, e), e.call);
  }

  lemma StartKeepsLists(w: World, call: nat, req: Request)
    requires Lists(w) && call !in w.calls
    ensures Lists(WithCall(w, call, Begun(w, req)))
  {
    forall k ensures ListKept(WithCall(w, call, Begun(w, req)), k) {
      assert ListKept(w, k) && ListKept(w, call);
    }
  }

  lemma TickKeepsLists(w: World, now: real)
    requires Lists(w)
    ensures Lists(Moved(w, w.tables, now))
  {
    forall k ensures ListKept(Moved(w, w.tables, now), k) {
      assert ListKept(w, k);
    }
  }

  lemma ApplyKeepsLists(c: Config, support: bool, w: World, e: Event)
    requires Lists(w)
    ensures Lists(Apply(c, support, w, e))
  {
    match e
    case Tick(dt) => TickKeepsLists(w, w.now + dt);
    case Start(call, req) =>
      if call !in w.calls {
        StartKeepsLists(w, call, req);
      }
    case Resume(call, _, _, _) =>
      if call in w.calls {
        ResumeKeepsLists(c, support, w, e);
      }
    case Abort(call) =>
      if call in w.calls {
        AbortKeepsLists(w, call);
      }
    case Transmit(call) =>
      if call in w.calls {
        TransmitKeepsLists(support, w, call);
      }
    case Respond(call, _, _) =>
      if call in w.calls {
        RespondKeepsLists(w, e);
      }
    case _ => CacheKeepsLists(c, support, w, e);
  }

  lemma {:induction false} RunKeepsLists(c: Config, support: bool, events: seq<Event>)
    ensures Lists(Run(c, support, events))
  {
    if events != [] {
      RunKeepsLists(c, support, events[..|events| - 1]);
      ApplyKeepsLists(c, support, Run(c, support, events[..|events| - 1]), events[|events| - 1]);
    }
  }

  /** The call was given its list by a load of its own: begun by an invalidating refresh after the call
      started, never served from the cache, and answered after that; and `list` is that list. */
  ghost predicate FreshList(w: World, ttl: int, call: nat, list: seq<Boards.Board>) {
    && call in w.calls && call in w.boards && w.boards[call].boards == list
    && var Listing(load, at, _) := w.boards[call];
    && w.calls[call].since <= load.at < at < |w.trace|
    && w.trace[load.at] == BoardLoads.Open(w.calls[call].req.owner, true)
    && w.trace[at] == BoardLoads.Deliver(load, list)
    && load in BoardLoads.Run(ttl, w.trace).loads
  }

  lemma ListIsFresh(w: World, ttl: int, call: nat)
    requires ListKept(w, call) && call in w.boards
    ensures FreshList(w, ttl, call, w.boards[call].boards)
  {
    BoardLoads.ForcedOpenLoads(ttl, w.trace, w.fetches[call].at);
  }

  /** The issuing and the sending call resolved the same board id to the address of the request. */
  lemma BothResolve(c: Config, support: bool, w: World, i: nat)
    requires Inv(c, support, w) && Lists(w) && i < |w.sends| && w.sends[i].call in w.calls
    requires w.calls[w.sends[i].call].req.target.ByBoard?
    ensures var s := w.sends[i];
            var target := w.calls[s.call].req.target;
            && s.challenge in w.grants && ResponseIds.BoardLookupId(target.text).Some?
            && var issuer := w.grants[s.challenge].issuer;
            && s.call in w.boards && issuer in w.boards
            && ResolveTarget(target, w.boards[s.call].boards) == Some(s.url)
            && ResolveTarget(target, w.boards[issuer].boards) == Some(s.url)
  {
    var s := w.sends[i];
    assert SendGranted(support, w, i);
    var g := w.grants[s.challenge];
    assert GrantResolved(support, w, s.challenge);
    assert Accepted(support, w.calls[s.call].req) && Accepted(support, w.calls[g.issuer].req);
    assert ListKept(w, s.call) && ListKept(w, g.issuer);
    SameTarget(w.calls[s.call].req, w.calls[g.issuer].req, s.url, w.calls[g.issuer].url.value);
  }

  /**
   A post sent for a board id goes to an address that two fresh lists both give for that id: one the
   issuing call fetched and one the sending call fetched, past the cache.
   */
  lemma BoardTarget(c: Config, support: bool, events: seq<Event>, ttl: int, i: nat)
    requires var w := Run(c, support, events);
             i < |w.sends| && w.sends[i].call in w.calls && w.calls[w.sends[i].call].req.target.ByBoard?
    ensures var w := Run(c, support, events);
            var s := w.sends[i];
            var id := ResponseIds.BoardLookupId(w.calls[s.call].req.target.text);
            && s.challenge in w.grants && id.Some?
            && var issuer := w.grants[s.challenge].issuer;
            && FreshList(w, ttl, s.call, ListFor(w, s.call)) && FreshList(w, ttl, issuer, ListFor(w, issuer))
            && Boards.Resolve(ListFor(w, s.call), id.value) == Boards.Found(s.url)
            && Boards.Resolve(ListFor(w, issuer), id.value) == Boards.Found(s.url)
  {
    var w := Run(c, support, events);
    RunKeeps(c, support, events);
    RunKeepsLists(c, support, events);
    BothResolve(c, support, w, i);
    var s := w.sends[i];
    var issuer := w.grants[s.challenge].issuer;
    assert ListKept(w, s.call) && ListKept(w, issuer);
    ListIsFresh(w, ttl, s.call);
    ListIsFresh(w, ttl, issuer);
  }

  /** Equal fields mean equal targets resolved alike. */
  lemma SameTarget(a: Request, b: Request, url: string, url': string)
    requires a.target.ByBoard? && !b.target.Direct?
    requires a.fields + TargetFields(a.target, url) == b.fields + TargetFields(b.target, url')
    requires b.target.ByUrl? ==> url' == b.target.url
    requires a.target.text != ""
    ensures b.target == a.target && url == url'
  {
    var fa, fb := a.fields + TargetFields(a.target, url), b.fields + TargetFields(b.target, url');
    assert fa["board_id"] == a.target.text && fa["resolved_board_url"] == url;
    assert fb["board_id"] == fa["board_id"] && fb["resolved_board_url"] == fa["resolved_board_url"];
  }
}
