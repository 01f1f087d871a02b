/** The deadline-bounded request loop: a read may be sent twice, a write never. */
module RequestLoop {
  import opened Basics

  const SERVER_ERROR_WAIT: real := 30.0

  /** What one HTTP attempt turns into; a 2xx body may still report an error, and a body of any status
      may be refused while it is read or parsed. */
  datatype Reply = TransportError | BodyRefused | Status(code: int, reportsError: bool)

  /** One attempt: how long it takes, its reply, how late a sleep after it wakes, and the deadline of
      the caller as it stands before the attempt and after it. */
  datatype Attempt = Attempt(duration: real, reply: Reply, lag: real, before: real, after: real)

  datatype Outcome =
    | Success
    | BackendContract
    | Exhausted
    | TimedOut
    | Unreachable
    | ClientError(code: int)
    | ServerFailure(retrySkipped: bool)

  predicate SafeToRetry(verb: string) {
    verb in {"GET", "HEAD", "OPTIONS"}
  }

  predicate IsServerError(r: Reply) {
    r.Status? && r.code >= 500
  }

  /** After a server error: is there a second attempt? */
  predicate Retries(safe: bool, retried: bool, remaining: real) {
    safe && !retried && remaining > SERVER_ERROR_WAIT + 1.0
  }

  function Min(a: real, b: real): (m: real)
    ensures m <= a && m <= b && m in {a, b}
  {
    if a < b then a else b
  }

  /** An attempt that leaves at `at` ends before both the call's deadline and the caller's; once a
      status and its body have been read, the caller's deadline is looked up again. */
  predicate InTime(a: Attempt, at: real, deadline: real) {
    && at + a.duration < Min(deadline, a.before)
    && (a.reply.Status? ==> at + a.duration < Min(deadline, a.after))
  }

  /** When the second attempt is due: after the first one and the full wait of half a minute. */
  function SecondAt(first: Attempt, at: real): real {
    at + first.duration + 30.0 + first.lag
  }

  /** A read saw a server error, with more than the wait and one second left. */
  predicate TriesAgain(verb: string, first: Attempt, at: real, deadline: real) {
    && verb in {"GET", "HEAD", "OPTIONS"} && InTime(first, at, deadline)
    && first.reply.Status? && first.reply.code >= 500
    && at + first.duration + 31.0 < Min(deadline, first.after)
  }

  /** What the last attempt makes of the call when time has not run out; `read` says whether a read
      ended after one request. */
  predicate Decided(reply: Reply, read: bool, outcome: Outcome) {
    && (outcome.Success? <==> reply.Status? && 200 <= reply.code < 300 && !reply.reportsError)
    && (outcome.BackendContract? <==>
          reply.BodyRefused? || (reply.Status? && 200 <= reply.code < 300 && reply.reportsError))
    && (outcome.Unreachable? <==> reply.TransportError?)
    && (outcome.ServerFailure? <==> reply.Status? && reply.code >= 500)
    && (outcome.ServerFailure? ==> outcome.retrySkipped == read)
    && (outcome.ClientError? <==> reply.Status? && (reply.code < 200 || 300 <= reply.code < 500))
    && (outcome.ClientError? ==> outcome.code == reply.code)
  }

  /**
   Runs the loop against an arbitrary environment, where attempt number i behaves as `world(i)`.
   `sent` lists the instants at which a request left, `end` is when the call returned. `timeout` bounds
   the whole call, and `outer` is the caller's deadline when it starts.
   */
  method RequestJson(verb: string, start: real, timeout: real, outer: real, world: nat -> Attempt)
    returns (sent: seq<real>, end: real, outcome: Outcome)
    requires forall i: nat :: world(i).duration >= 0.0 && world(i).lag >= 0.0
    // Nothing is sent at or after a deadline, and nothing succeeds there.
    ensures forall i :: 0 <= i < |sent| ==>
              start <= sent[i] && sent[i] < outer && sent[i] < start + timeout && sent[i] < world(i).before
    ensures outcome.Success? ==>
              && sent != [] && world(|sent| - 1).reply.Status? && 200 <= world(|sent| - 1).reply.code < 300
              && InTime(world(|sent| - 1), sent[|sent| - 1], Min(outer, start + timeout))
    // A write is sent at most once, whatever comes back; a read at most twice.
    ensures |sent| <= if verb in {"GET", "HEAD", "OPTIONS"} then 2 else 1
    // The second request leaves exactly if the first reply calls for it and there is still time then.
    ensures var deadline := Min(outer, start + timeout);
            && (sent == [] <==> start >= Min(deadline, world(0).before))
            && (sent != [] ==> sent[0] == start)
            && (|sent| == 2 <==>
                  && sent != [] && TriesAgain(verb, world(0), start, deadline)
                  && SecondAt(world(0), start) < Min(deadline, world(1).before))
            && (|sent| == 2 ==> sent[1] == SecondAt(world(0), start))
            // Otherwise the last attempt decides, unless time has run out.
            && (outcome.Exhausted? <==>
                  sent == [] || (|sent| == 1 && TriesAgain(verb, world(0), start, deadline)))
            && (outcome.TimedOut? <==> sent != [] && !InTime(world(|sent| - 1), sent[|sent| - 1], deadline))
            && (!outcome.Exhausted? && !outcome.TimedOut? ==>
                  && Decided(world(|sent| - 1).reply, |sent| == 1 && verb in {"GET", "HEAD", "OPTIONS"}, outcome)
                  && end == sent[|sent| - 1] + world(|sent| - 1).duration)
            && (outcome.Exhausted? ==> end == if sent == [] then start else SecondAt(world(0), start))
            && (outcome.TimedOut? ==>
                  end == Min(sent[|sent| - 1] + world(|sent| - 1).duration, Min(deadline, world(|sent| - 1).before)))
  {
    var safe := SafeToRetry(verb);
    var deadline := Min(outer, start + timeout);
    var retried := false;
    sent, end, outcome := [], start, Exhausted;
    while true
      invariant sent == if retried then [start] else []
      invariant retried ==>
                  && start < Min(deadline, world(0).before) && TriesAgain(verb, world(0), start, deadline)
      invariant end == if retried then SecondAt(world(0), start) else start
      decreases !retried
    {
      var attempt := world(|sent|);
      var remaining := Min(deadline, attempt.before) - end;
      if remaining <= 0.0 {
        outcome := Exhausted;
        return;
      }
      sent := sent + [end];
      if attempt.duration >= remaining {
        end, outcome := end + remaining, TimedOut;
        return;
      }
      end := end + attempt.duration;
      match attempt.reply
      case TransportError =>
        outcome := Unreachable;
        return;
      case BodyRefused =>
        outcome := BackendContract;
        return;
      case Status(code, reportsError) =>
        if end >= Min(deadline, attempt.after) {
          outcome := TimedOut;
          return;
        }
        if 200 <= code < 300 {
          outcome := if reportsError then BackendContract else Success;
          return;
        }
        if code < 500 {
          outcome := ClientError(code);
          return;
        }
        if !Retries(safe, retried, Min(deadline, attempt.after) - end) {
          outcome := ServerFailure(safe && !retried);
          return;
        }
        retried := true;
        end := end + SERVER_ERROR_WAIT + attempt.lag;
    }
  }

  /** No write verb is ever repeated, whatever budget remains. */
  lemma WritesNeverRetry(verb: string, retried: bool, remaining: real)
    requires verb in {"POST", "PUT", "PATCH", "DELETE"}
    ensures !Retries(SafeToRetry(verb), retried, remaining)
  {
    assert "POST"[0] == 'P' && "PUT"[0] == 'P' && "PATCH"[0] == 'P' && "DELETE"[0] == 'D';
    assert "GET"[0] == 'G' && "HEAD"[0] == 'H' && "OPTIONS"[0] == 'O';
  }
}
