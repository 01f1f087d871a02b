/** Admission of HTTP requests: a slot counter, a sliding window of start times, and a body bound. */
module Limiter {
  import opened Basics
  import opened BoundedReader

  /** Positive settings of the middleware; the window is in seconds. */
  datatype Settings = Settings(maxConcurrent: int, requestLimit: int, window: int)
  {
    predicate Positive() {
      maxConcurrent > 0 && requestLimit > 0 && window > 0
    }
  }

  type Config = s: Settings | s.Positive() witness Settings(16, 120, 60)

  /** The deque after its expired head has been popped. */
  function Pruned(started: seq<real>, bound: real): (r: seq<real>)
    ensures |r| <= |started|
  {
    if started == [] || started[0] > bound then started else Pruned(started[1..], bound)
  }

  lemma {:induction false} PrunedIsSuffix(started: seq<real>, bound: real) returns (n: nat)
    ensures n <= |started| && Pruned(started, bound) == started[n..]
    ensures forall i :: 0 <= i < n ==> started[i] <= bound
    ensures n < |started| ==> started[n] > bound
  {
    if started == [] || started[0] > bound {
      n := 0;
    } else {
      var k := PrunedIsSuffix(started[1..], bound);
      n := k + 1;
      forall i | 0 <= i < n ensures started[i] <= bound {
        if i > 0 {
          assert started[1..][i - 1] <= bound;
        }
      }
    }
  }

  /** Of sorted times, popping the head leaves exactly the ones inside the window. */
  lemma PrunedIsAfter(started: seq<real>, bound: real)
    requires Sorted(started)
    ensures Pruned(started, bound) == After(started, bound)
  {
    var n := PrunedIsSuffix(started, bound);
    AfterIsSuffix(started, bound);
    var k := |started| - |After(started, bound)|;
    assert k < |started| ==> started[k] == After(started, bound)[0];
  }

  datatype Decision = Admitted | Refused(retryAfter: int)

  /** The deque is `started`, pruned, when the decision is made. */
  function Decide(c: Config, active: int, started: seq<real>, now: real): Decision {
    if active < c.maxConcurrent && |started| < c.requestLimit then Admitted
    else if |started| < c.requestLimit then Refused(1)
    else Refused(SecondsUntil(started[0] + c.window as real, now))
  }

  // ---- In place ----

  class RequestLimiter {
    const config: Config
    var active: int
    var started: seq<real>

    constructor (c: Config)
      ensures config == c && active == 0 && started == []
    {
      config, active, started := c, 0, [];
    }

    /** Everything up to the request's first await. */
    method Enter(now: real) returns (r: Decision)
      modifies this
      ensures var kept := Pruned(old(started), now - config.window as real);
              && r == Decide(config, old(active), kept, now)
              && started == (if r.Admitted? then kept + [now] else kept)
              && active == (if r.Admitted? then old(active) + 1 else old(active))
    {
      while started != [] && started[0] <= now - config.window as real
        invariant Pruned(started, now - config.window as real) == Pruned(old(started), now - config.window as real)
        invariant active == old(active)
        decreases |started|
      {
        started := started[1..];
      }
      if active >= config.maxConcurrent || |started| >= config.requestLimit {
        r := Refused(if |started| < config.requestLimit then 1
                     else SecondsUntil(started[0] + config.window as real, now));
        return;
      }
      active := active + 1;
      started := started + [now];
      r := Admitted;
    }

    /** The `finally` block, however the request ended. */
    method Leave()
      modifies this`active
      ensures active == old(active) - 1
    {
      active := active - 1;
    }
  }

  // ---- Interleaved requests ----

  type Id = string

  /** A request leaves by returning, failing, disconnecting or timing out. */
  datatype Event = Tick(dt: real) | Enter(id: Id) | Leave(id: Id)

  /** `log` lists all admissions ever made, `running` the admitted requests that have not left,
      and `pruned` is when the deque was last pruned. */
  datatype World = World(now: real, active: int, started: seq<real>, running: set<Id>, seen: set<Id>,
                         log: seq<real>, pruned: real)

  const START := World(0.0, 0, [], {}, {}, [], 0.0)

  function EnterStep(c: Config, w: World, id: Id): (World, Decision) {
    var kept := Pruned(w.started, w.now - c.window as real);
    var w1 := w.(started := kept, pruned := w.now, seen := w.seen + {id});
    var d := Decide(c, w.active, kept, w.now);
    (if d.Admitted? then
       w1.(active := w.active + 1, started := kept + [w.now], running := w.running + {id}, log := w.log + [w.now])
     else w1, d)
  }

  function Apply(c: Config, w: World, e: Event): World {
    match e
    case Tick(dt) => if dt >= 0.0 then w.(now := w.now + dt) else w
    case Enter(id) => if id in w.seen then w else EnterStep(c, w, id).0
    case Leave(id) =>
      if id in w.running then w.(active := w.active - 1, running := w.running - {id}) else w
  }

  function Run(c: Config, events: seq<Event>): World {
    if events == [] then START
    else Apply(c, Run(c, events[..|events| - 1]), events[|events| - 1])
  }

  ghost predicate Inv(c: Config, w: World) {
    && w.active == |w.running| <= c.maxConcurrent
    && w.running <= w.seen
    && Sorted(w.log) && AtMost(w.log, w.now) && w.pruned <= w.now
    && w.started == After(w.log, w.pruned - c.window as real)
    && Paced(w.log, c.window as real, c.requestLimit)
  }

  lemma AfterSorted(stamps: seq<real>, bound: real)
    requires Sorted(stamps)
    ensures Sorted(After(stamps, bound))
  {
    AfterIsSuffix(stamps, bound);
  }

  /** Pruning what an earlier pruning left equals pruning everything ever admitted. */
  lemma PruneAgain(log: seq<real>, early: real, late: real)
    requires Sorted(log) && early <= late
    ensures Pruned(After(log, early), late) == After(log, late)
  {
    AfterSorted(log, early);
    PrunedIsAfter(After(log, early), late);
    AfterAfter(log, early, late);
  }

  lemma PruneLog(c: Config, w: World)
    requires Inv(c, w)
    ensures Pruned(w.started, w.now - c.window as real) == After(w.log, w.now - c.window as real)
  {
    PruneAgain(w.log, w.pruned - c.window as real, w.now - c.window as real);
  }

  lemma LogAppend(log: seq<real>, now: real, bound: real, window: real, limit: int)
    requires Sorted(log) && AtMost(log, now) && Paced(log, window, limit)
    requires bound == now - window < now && |After(log, bound)| < limit
    ensures Sorted(log + [now]) && AtMost(log + [now], now) && Paced(log + [now], window, limit)
    ensures After(log + [now], bound) == After(log, bound) + [now]
  {
    PacedAppend(log, now, window, limit);
    AfterAppend(log, now, bound);
  }

  lemma AdmitKeeps(c: Config, w: World, w': World, id: Id)
    requires Inv(c, w) && id !in w.seen && |w.running| < c.maxConcurrent
    requires |After(w.log, w.now - c.window as real)| < c.requestLimit
    requires w' == w.(active := w.active + 1, started := After(w.log, w.now - c.window as real) + [w.now],
                      running := w.running + {id}, seen := w.seen + {id}, log := w.log + [w.now], pruned := w.now)
    ensures Inv(c, w')
  {
    LogAppend(w.log, w.now, w.now - c.window as real, c.window as real, c.requestLimit);
    assert |w.running + {id}| == |w.running| + 1;
  }

  lemma EnterKeeps(c: Config, w: World, id: Id)
    requires Inv(c, w) && id !in w.seen
    ensures Inv(c, EnterStep(c, w, id).0)
  {
    var (w', d) := EnterStep(c, w, id);
    PruneLog(c, w);
    if d.Admitted? {
      AdmitKeeps(c, w, w', id);
    }
  }

  lemma {:induction false} RunKeeps(c: Config, events: seq<Event>)
    ensures Inv(c, Run(c, events))
  {
    if events != [] {
      var w, e := Run(c, events[..|events| - 1]), events[|events| - 1];
      RunKeeps(c, events[..|events| - 1]);
      if e.Enter? && e.id !in w.seen {
        EnterKeeps(c, w, e.id);
      } else if e.Leave? && e.id in w.running {
        assert |w.running - {e.id}| == |w.running| - 1;
      }
    }
  }

  /** The counter is the number of admitted requests that have not left, and within its maximum. */
  lemma SlotsAreCounted(c: Config, events: seq<Event>)
    ensures var w := Run(c, events); w.active == |w.running| && 0 <= w.active <= c.maxConcurrent
  {
    RunKeeps(c, events);
  }

  /** No window of the configured length, wherever it ends, holds more admissions than the limit. */
  lemma AdmissionWindow(c: Config, events: seq<Event>, t: real)
    ensures InWindow(Run(c, events).log, t - c.window as real, t) <= c.requestLimit
  {
    RunKeeps(c, events);
    PacedWindow(Run(c, events).log, c.window as real, c.requestLimit, t);
  }

  /** `kept` is the sorted end of the log, of everything later than `low` and nothing else. */
  ghost predicate IsWindow(kept: seq<real>, log: seq<real>, low: real) {
    var n := |log| - |kept|;
    && n >= 0 && kept == log[n..] && Sorted(kept)
    && forall i :: 0 <= i < |log| ==> (log[i] > low <==> i >= n)
  }

  lemma InWindowFrom(log: seq<real>, low: real)
    requires Sorted(log)
    ensures IsWindow(After(log, low), log, low)
  {
    AfterIsSuffix(log, low);
    var n := |log| - |After(log, low)|;
    forall i | n <= i < |log| ensures log[i] > low {
      assert log[i] == After(log, low)[i - n];
    }
  }

  lemma WorldWindow(c: Config, w: World)
    requires Inv(c, w)
    ensures IsWindow(Pruned(w.started, w.now - c.window as real), w.log, w.now - c.window as real)
  {
    PruneLog(c, w);
    InWindowFrom(w.log, w.now - c.window as real);
  }

  /** When a request is decided, the deque is the sorted in-window suffix of the admission log. */
  lemma DequeIsWindow(c: Config, events: seq<Event>)
    ensures var w := Run(c, events);
            IsWindow(Pruned(w.started, w.now - c.window as real), w.log, w.now - c.window as real)
  {
    RunKeeps(c, events);
    WorldWindow(c, Run(c, events));
  }

  /** Admission is exactly a free slot and a window that is not full. */
  lemma AdmittedExactly(c: Config, events: seq<Event>, id: Id)
    ensures var w := Run(c, events);
            EnterStep(c, w, id).1.Admitted? <==>
              |w.running| < c.maxConcurrent
              && InWindow(w.log, w.now - c.window as real, w.now) < c.requestLimit
  {
    var w := Run(c, events);
    RunKeeps(c, events);
    PruneLog(c, w);
    WindowCount(w.log, w.now - c.window as real, w.now);
  }

  /** A request that finds the window open but no slot free is told to wait a second. */
  lemma SlotRefusal(c: Config, events: seq<Event>, id: Id)
    ensures var w := Run(c, events);
            |w.running| >= c.maxConcurrent && InWindow(w.log, w.now - c.window as real, w.now) < c.requestLimit ==>
              EnterStep(c, w, id).1 == Refused(1)
  {
    var w := Run(c, events);
    RunKeeps(c, events);
    PruneLog(c, w);
    WindowCount(w.log, w.now - c.window as real, w.now);
  }

  /** What a request's arrival and departure do: it holds a slot and is logged exactly if it is admitted,
      and gives the slot back. */
  lemma EntersAndLeaves(c: Config, events: seq<Event>, id: Id)
    ensures var w, w' := Run(c, events), Run(c, events + [Enter(id)]);
            var admitted := && id !in w.seen && |w.running| < c.maxConcurrent
                            && InWindow(w.log, w.now - c.window as real, w.now) < c.requestLimit;
            && w'.running == (if admitted then w.running + {id} else w.running)
            && w'.log == (if admitted then w.log + [w.now] else w.log) && w'.now == w.now
    ensures Run(c, events + [Leave(id)]).running == Run(c, events).running - {id}
    ensures Run(c, events + [Leave(id)]).log == Run(c, events).log
  {
    AdmittedExactly(c, events, id);
    assert (events + [Enter(id)])[..|events|] == events && (events + [Leave(id)])[..|events|] == events;
  }

  /**
   The rate-based delay is sound and tight: the window that refused a request stays full strictly
   before the deadline the delay is computed from and is not full from then on, as long as nothing
   else is admitted; and the deadline lies ahead. So waiting the reported seconds is long enough.
   */
  lemma RetryAfterHolds(c: Config, events: seq<Event>, id: Id, later: real)
    requires var w := Run(c, events);
             && InWindow(w.log, w.now - c.window as real, w.now) >= c.requestLimit
             && w.now <= later
    ensures var (w, d) := EnterStep(c, Run(c, events), id);
            && w.started != []
            && var deadline := w.started[0] + c.window as real;
            && d == Refused(SecondsUntil(deadline, w.now)) && deadline > w.now
            && (|Pruned(w.started, later - c.window as real)| >= c.requestLimit <==> later < deadline)
            && (later >= w.now + d.retryAfter as real ==>
                  InWindow(w.log, later - c.window as real, later) < c.requestLimit)
  {
    var w := Run(c, events);
    RunKeeps(c, events);
    var low, late := w.now - c.window as real, later - c.window as real;
    var kept := Pruned(w.started, low);
    assert kept == After(w.log, low) by {
      PruneLog(c, w);
    }
    assert |kept| == c.requestLimit by {
      WindowCount(w.log, low, w.now);
      PacedWindow(w.log, c.window as real, c.requestLimit, w.now);
    }
    assert InWindow(w.log, late, later) == |Pruned(kept, late)| by {
      PruneAgain(w.log, low, late);
      WindowCount(w.log, late, later);
    }
  }

  // ---- The body bound ----

  datatype Message = Disconnect | Part(body: Bytes, more: bool)

  datatype Verdict = Forward(body: Bytes) | TooLarge | BadLength | Gone | Waiting

  /** A declared length; None when the header value is not an integer. */
  type Length = Option<int>

  /** The first declared length that is not acceptable decides. */
  function Declared(lengths: seq<Length>, max: int): Option<Verdict> {
    if lengths == [] then None
    else if lengths[0].None? || lengths[0].value < 0 then Some(BadLength)
    else if lengths[0].value > max then Some(TooLarge)
    else Declared(lengths[1..], max)
  }

  /** Collect the body until its last part; `Waiting` is a client that has sent no more yet. */
  method ReadRequest(lengths: seq<Length>, messages: seq<Message>, max: int) returns (r: Verdict)
    requires max > 0
    ensures r == if Declared(lengths, max).Some? then Declared(lengths, max).value else Assemble(messages, [], max)
  {
    for i := 0 to |lengths|
      invariant Declared(lengths, max) == Declared(lengths[i..], max)
    {
      if lengths[i].None? || lengths[i].value < 0 {
        return BadLength;
      }
      if lengths[i].value > max {
        return TooLarge;
      }
    }
    var body: Bytes := [];
    for n := 0 to |messages|
      invariant Assemble(messages, [], max) == Assemble(messages[n..], body, max)
    {
      if messages[n].Disconnect? {
        return Gone;
      }
      if |body| + |messages[n].body| > max {
        return TooLarge;
      }
      body := body + messages[n].body;
      if !messages[n].more {
        return Forward(body);
      }
    }
    return Waiting;
  }

  function Assemble(messages: seq<Message>, body: Bytes, max: int): Verdict {
    if messages == [] then Waiting
    else if messages[0].Disconnect? then Gone
    else if |body| + |messages[0].body| > max then TooLarge
    else if !messages[0].more then Forward(body + messages[0].body)
    else Assemble(messages[1..], body + messages[0].body, max)
  }

  /** A body sent as `parts`, the last of them marked as such. */
  function Sent(parts: seq<Bytes>): seq<Message> {
    seq(|parts|, i requires 0 <= i < |parts| => Part(parts[i], i < |parts| - 1))
  }

  lemma {:induction false} AssembleSent(parts: seq<Bytes>, n: nat, max: int)
    requires n < |parts| && |Concat(parts[..n])| <= max
    ensures Assemble(Sent(parts)[n..], Concat(parts[..n]), max)
         == if |Concat(parts)| <= max then Forward(Concat(parts)) else TooLarge
    decreases |parts| - n
  {
    var messages := Sent(parts)[n..];
    assert parts[..n + 1] == parts[..n] + [parts[n]];
    ConcatAppend(parts[..n], parts[n]);
    ConcatSplit(parts, n + 1);
    if n + 1 < |parts| {
      assert messages[1..] == Sent(parts)[n + 1..];
      if |Concat(parts[..n + 1])| <= max {
        AssembleSent(parts, n + 1, max);
      }
    } else {
      assert parts[..n + 1] == parts;
    }
  }

  predicate Acceptable(length: Length, max: int) {
    length.Some? && 0 <= length.value <= max
  }

  /** The declared length at `i` is the first unacceptable one. */
  ghost predicate FirstBad(lengths: seq<Length>, max: int, i: nat) {
    i < |lengths| && !Acceptable(lengths[i], max) && forall j :: 0 <= j < i ==> Acceptable(lengths[j], max)
  }

  /** Every declared length must be a number from 0 to the maximum; else the first that is not decides. */
  lemma {:induction false} DeclaredExactly(lengths: seq<Length>, max: int, i: nat)
    requires max > 0
    ensures Declared(lengths, max).None? <==> forall k :: 0 <= k < |lengths| ==> Acceptable(lengths[k], max)
    ensures FirstBad(lengths, max, i) ==>
              Declared(lengths, max) == Some(if lengths[i].Some? && lengths[i].value > max then TooLarge else BadLength)
  {
    if lengths != [] {
      var others := lengths[1..];
      DeclaredExactly(others, max, if i > 0 then i - 1 else 0);
      assert lengths == [lengths[0]] + others;
      if FirstBad(lengths, max, i) && i > 0 {
        assert FirstBad(others, max, i - 1);
      }
    }
  }

  /** Parts of a body with more to come. */
  function Partial(parts: seq<Bytes>): seq<Message> {
    seq(|parts|, i requires 0 <= i < |parts| => Part(parts[i], true))
  }

  /** A body that is not complete yet is refused as soon as it is too large, whatever follows; else what
      follows decides. */
  lemma {:induction false} AssemblePartial(parts: seq<Bytes>, rest: seq<Message>, body: Bytes, max: int)
    requires |body| <= max
    ensures Assemble(Partial(parts) + rest, body, max)
         == if |body| + |Concat(parts)| <= max then Assemble(rest, body + Concat(parts), max) else TooLarge
    decreases |parts|
  {
    if parts == [] {
      assert Partial(parts) + rest == rest && body + Concat(parts) == body;
    } else {
      var first, others := parts[0], parts[1..];
      assert (Partial(parts) + rest)[1..] == Partial(others) + rest;
      assert parts[..1] == [first] && parts[..1][..0] == [];
      ConcatSplit(parts, 1);
      assert Concat(parts[..1]) == first;
      assert body + first + Concat(others) == body + Concat(parts);
      if |body| + |first| <= max {
        AssemblePartial(others, rest, body + first, max);
      }
    }
  }

  /** Until a body is complete the client may leave, or send no more for now. */
  lemma UntilComplete(parts: seq<Bytes>, rest: seq<Message>, max: int)
    requires max > 0
    ensures Assemble(Partial(parts), [], max) == if |Concat(parts)| <= max then Waiting else TooLarge
    ensures Assemble(Partial(parts) + [Disconnect] + rest, [], max) == if |Concat(parts)| <= max then Gone else TooLarge
  {
    AssemblePartial(parts, [], [], max);
    AssemblePartial(parts, [Disconnect] + rest, [], max);
    assert Partial(parts) + [] == Partial(parts);
    assert Partial(parts) + [Disconnect] + rest == Partial(parts) + ([Disconnect] + rest);
  }

  /** However a complete body is cut up, it is forwarded whole or refused, by its size alone. */
  lemma BodyBound(parts: seq<Bytes>, max: int)
    requires parts != [] && max > 0
    ensures Assemble(Sent(parts), [], max)
         == if |Concat(parts)| <= max then Forward(Concat(parts)) else TooLarge
  {
    assert Sent(parts)[0..] == Sent(parts) && parts[..0] == [];
    AssembleSent(parts, 0, max);
  }
}
