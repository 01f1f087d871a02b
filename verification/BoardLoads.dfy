/**
 Loads of the board list as coroutines. Any number of them overlap, with each other and with
 invalidations; a response may arrive long after its key was cleared.
 */
module BoardLoads {
  import opened Basics
  import opened BoardCache

  /** A load is named after the event that began it. */
  datatype LoadId = LoadId(at: nat)

  datatype Event =
    | Tick(dt: real)
    | Open(key: Key, force: bool)
    | Deliver(id: LoadId, boards: Listing)
    | Close(id: LoadId)
    | Forget(which: Option<Key>)

  /** `delivered` is the event that brought the response. */
  datatype Load = Load(key: Key, delivered: Option<nat>, done: bool)

  /** `valid` holds the tickets whose flag is set; `origin` tells which load filled a cached key. */
  datatype World = World(now: real, cache: Cache<LoadId>, valid: set<LoadId>, loads: map<LoadId, Load>,
                         origin: map<Key, LoadId>)

  const START := World(0.0, Cache([], map[]), {}, map[], map[])

  ghost function ForgetStep(w: World, which: Option<Key>): World {
    w.(cache := Clear(w.cache, which), valid := w.valid - Revoked(w.cache.pending, which))
  }

  /** From the start of a load up to its await: a hit ends it, a miss leaves a ticket behind. */
  ghost function OpenStep(ttl: int, w: World, key: Key, n: nat): World {
    var (cache, hit) := Get(w.cache, key, w.now, ttl);
    if hit.Some? then w.(cache := cache) else MissStep(w.(cache := cache), key, n)
  }

  function MissStep(w: World, key: Key, n: nat): World {
    var id := LoadId(n);
    w.(cache := Begin(w.cache, key, id), valid := w.valid + {id}, loads := w.loads[id := Load(key, None, false)])
  }

  function DeliverStep(ttl: int, w: World, id: LoadId, boards: Listing, n: nat): World
    requires id in w.loads
  {
    var key := w.loads[id].key;
    w.(cache := Put(w.cache, key, boards, id in w.valid, w.now, ttl),
       loads := w.loads[id := w.loads[id].(delivered := Some(n))],
       origin := if id in w.valid then w.origin[key := id] else w.origin)
  }

  function CloseStep(w: World, id: LoadId): World
    requires id in w.loads
  {
    w.(cache := Finish(w.cache, w.loads[id].key, id), valid := w.valid - {id},
       loads := w.loads[id := w.loads[id].(done := true)])
  }

  ghost function Apply(ttl: int, w: World, e: Event, n: nat): World {
    match e
    case Tick(dt) => if dt >= 0.0 then w.(now := w.now + dt) else w
    case Open(key, force) => OpenStep(ttl, if force then ForgetStep(w, Some(key)) else w, key, n)
    case Deliver(id, boards) =>
      if id in w.loads && w.loads[id].delivered.None? then DeliverStep(ttl, w, id, boards, n) else w
    case Close(id) => if id in w.loads then CloseStep(w, id) else w
    case Forget(which) => ForgetStep(w, which)
  }

  ghost function Run(ttl: int, events: seq<Event>): World {
    if events == [] then START
    else
      var n := |events| - 1;
      Apply(ttl, Run(ttl, events[..n]), events[n], n)
  }

  // ---- Invariant ----

  predicate Clears(e: Event, key: Key) {
    || e == Forget(None) || e == Forget(Some(key))
    || e == Open(key, true)
  }

  /** `key` was invalidated after event `m`. */
  ghost predicate Superseded(events: seq<Event>, key: Key, m: nat) {
    exists n :: m < n < |events| && Clears(events[n], key)
  }

  /** The entry is the response to a load begun at or after the last invalidation of its key. */
  ghost predicate Fenced(events: seq<Event>, w: World, e: Entry) {
    && e.key in w.origin
    && var id := w.origin[e.key];
    && id in w.loads && w.loads[id].key == e.key && w.loads[id].delivered.Some?
    && w.loads[id].delivered.value < |events| && events[w.loads[id].delivered.value] == Deliver(id, e.boards)
    && !Superseded(events, e.key, id.at)
  }

  ghost predicate LoadKnown(events: seq<Event>, w: World, id: LoadId) {
    id in w.loads ==>
      && id.at < |events| && events[id.at].Open? && events[id.at].key == w.loads[id].key
      && (w.loads[id].delivered.Some? ==> id.at < w.loads[id].delivered.value)
  }

  ghost predicate Outstanding(events: seq<Event>, w: World, id: LoadId) {
    id in w.loads && !w.loads[id].done && !Superseded(events, w.loads[id].key, id.at)
  }

  /** The flag of a ticket, and its place in the pending table, say whether it is outstanding. */
  ghost predicate TicketKept(events: seq<Event>, w: World, id: LoadId) {
    && (id in w.valid <==> Outstanding(events, w, id))
    && forall key :: key in w.cache.pending && id in w.cache.pending[key] <==>
         Outstanding(events, w, id) && w.loads[id].key == key
  }

  ghost predicate Inv(events: seq<Event>, w: World) {
    && Tidy(w.cache.entries, w.now)
    && (forall e :: e in Contents(w.cache.entries) ==> Fenced(events, w, e))
    && (forall id :: LoadKnown(events, w, id))
    && (forall id :: TicketKept(events, w, id))
    && forall key :: key in w.cache.pending ==> w.cache.pending[key] != {}
  }

  lemma SupersededStep(events: seq<Event>, e: Event, key: Key, m: nat)
    requires m <= |events|
    ensures Superseded(events + [e], key, m) <==> Superseded(events, key, m) || (m < |events| && Clears(e, key))
  {
    var events' := events + [e];
    if n :| m < n < |events| && Clears(events[n], key) {
      assert events'[n] == events[n];
    }
    if m < |events| && Clears(e, key) {
      assert events'[|events|] == e;
    }
  }

  /** An event that clears nothing, whatever it does to the entries and to the loads it leaves alone. */
  lemma QuietStep(events: seq<Event>, w: World, e: Event, w': World)
    requires Inv(events, w) && Tidy(w'.cache.entries, w'.now)
    requires forall key :: !Clears(e, key)
    requires Contents(w'.cache.entries) <= Contents(w.cache.entries)
    requires w' == w.(now := w'.now, cache := w.cache.(entries := w'.cache.entries))
    ensures Inv(events + [e], w')
  {
    var events' := events + [e];
    forall x | x in Contents(w'.cache.entries) ensures Fenced(events', w', x) {
      assert Fenced(events, w, x);
      assert LoadKnown(events, w, w.origin[x.key]);
      SupersededStep(events, e, x.key, w.origin[x.key].at);
    }
    forall id ensures LoadKnown(events', w', id) && TicketKept(events', w', id) {
      assert LoadKnown(events, w, id) && TicketKept(events, w, id);
      if id in w.loads {
        SupersededStep(events, e, w.loads[id].key, id.at);
      }
    }
  }

  /** An insertion keeps nothing else under the key. */
  lemma PutContents(entries: seq<Entry>, key: Key, boards: Listing, now: real, ttl: int)
    requires Tidy(entries, now)
    ensures var after := Insert(entries, key, boards, now, ttl);
            && Tidy(after, now)
            && forall e :: e in Contents(after) ==>
                 e == Entry(key, now, boards) || (e in Contents(entries) && e.key != key)
  {
    InsertTidy(entries, key, boards, now, now, ttl);
    EvictsOldest(entries, key, boards, now, now, ttl);
  }

  /** A response of a load whose ticket is no longer valid is dropped. */
  lemma DropKeeps(events: seq<Event>, w: World, id: LoadId, boards: Listing)
    requires Inv(events, w) && id in w.loads && w.loads[id].delivered.None?
    ensures Inv(events + [Deliver(id, boards)], w.(loads := w.loads[id := w.loads[id].(delivered := Some(|events|))]))
  {
    var e, w' := Deliver(id, boards), w.(loads := w.loads[id := w.loads[id].(delivered := Some(|events|))]);
    var events' := events + [e];
    forall x | x in Contents(w'.cache.entries) ensures Fenced(events', w', x) {
      assert Fenced(events, w, x);
      assert LoadKnown(events, w, w.origin[x.key]);
      SupersededStep(events, e, x.key, w.origin[x.key].at);
    }
    forall i ensures LoadKnown(events', w', i) && TicketKept(events', w', i) {
      assert LoadKnown(events, w, i) && TicketKept(events, w, i);
      if i in w.loads {
        SupersededStep(events, e, w.loads[i].key, i.at);
      }
    }
  }

  lemma DeliverKeeps(ttl: int, events: seq<Event>, w: World, id: LoadId, boards: Listing)
    requires Inv(events, w) && id in w.loads && w.loads[id].delivered.None?
    ensures Inv(events + [Deliver(id, boards)], DeliverStep(ttl, w, id, boards, |events|))
  {
    var events', w' := events + [Deliver(id, boards)], DeliverStep(ttl, w, id, boards, |events|);
    var w1 := w.(loads := w'.loads);
    DropKeeps(events, w, id, boards);
    if id in w.valid {
      var key := w.loads[id].key;
      PutContents(w.cache.entries, key, boards, w.now, ttl);
      assert TicketKept(events', w1, id);
      forall x | x in Contents(w'.cache.entries) ensures Fenced(events', w', x) {
        assert x == Entry(key, w.now, boards) || Fenced(events', w1, x);
      }
      forall i ensures LoadKnown(events', w', i) && TicketKept(events', w', i) {
        assert LoadKnown(events', w1, i) && TicketKept(events', w1, i);
      }
    } else {
      assert w' == w1;
    }
  }

  lemma CloseKeeps(events: seq<Event>, w: World, id: LoadId)
    requires Inv(events, w) && id in w.loads
    ensures Inv(events + [Close(id)], CloseStep(w, id))
  {
    var e, w' := Close(id), CloseStep(w, id);
    var events' := events + [e];
    forall x | x in Contents(w'.cache.entries) ensures Fenced(events', w', x) {
      assert Fenced(events, w, x);
      assert LoadKnown(events, w, w.origin[x.key]);
      SupersededStep(events, e, x.key, w.origin[x.key].at);
    }
    forall i ensures LoadKnown(events', w', i) && TicketKept(events', w', i) {
      assert LoadKnown(events, w, i) && TicketKept(events, w, i) && TicketKept(events, w, id);
      if i in w.loads {
        SupersededStep(events, e, w.loads[i].key, i.at);
      }
    }
  }

  /** Clearing, by `e`, before anything else that `e` does. */
  lemma ForgetKeeps(events: seq<Event>, w: World, e: Event, which: Option<Key>)
    requires Inv(events, w)
    requires forall key :: Clears(e, key) <==> which == None || which == Some(key)
    ensures Inv(events + [e], ForgetStep(w, which))
  {
    var w', events' := ForgetStep(w, which), events + [e];
    if which.Some? {
      WithoutTidy(w.cache.entries, which.value, w.now);
      WithoutContents(w.cache.entries, which.value);
    }
    forall x | x in Contents(w'.cache.entries) ensures Fenced(events', w', x) {
      assert Fenced(events, w, x);
      assert LoadKnown(events, w, w.origin[x.key]);
      SupersededStep(events, e, x.key, w.origin[x.key].at);
    }
    forall i ensures LoadKnown(events', w', i) && TicketKept(events', w', i) {
      assert LoadKnown(events, w, i) && TicketKept(events, w, i);
      if i in w.loads {
        var key := w.loads[i].key;
        assert key in w.cache.pending && i in w.cache.pending[key] <==> Outstanding(events, w, i);
        SupersededStep(events, e, key, i.at);
      }
    }
  }

  lemma ExpireKeeps(events: seq<Event>, w: World, entries: seq<Entry>)
    requires Inv(events, w) && Tidy(entries, w.now) && Contents(entries) <= Contents(w.cache.entries)
    ensures Inv(events, w.(cache := w.cache.(entries := entries)))
  {
    var w' := w.(cache := w.cache.(entries := entries));
    forall x | x in Contents(entries) ensures Fenced(events, w', x) {
      assert Fenced(events, w, x);
    }
    forall i ensures LoadKnown(events, w', i) && TicketKept(events, w', i) {
      assert LoadKnown(events, w, i) && TicketKept(events, w, i);
    }
  }

  /** A miss: `events` already ends with this opening. */
  lemma MissKeeps(events: seq<Event>, w: World)
    requires events != [] && events[|events| - 1].Open? && Inv(events, w)
    requires LoadId(|events| - 1) !in w.loads
    ensures Inv(events, MissStep(w, events[|events| - 1].key, |events| - 1))
  {
    var n := |events| - 1;
    var key, id := events[n].key, LoadId(n);
    var w' := MissStep(w, key, n);
    forall x | x in Contents(w'.cache.entries) ensures Fenced(events, w', x) {
      assert Fenced(events, w, x);
    }
    forall i ensures LoadKnown(events, w', i) && TicketKept(events, w', i) {
      assert LoadKnown(events, w, i) && TicketKept(events, w, i);
    }
  }

  /** Opening, once a forced refresh has cleared the key: `events` already ends with this event. */
  lemma OpenKeeps(ttl: int, events: seq<Event>, w: World)
    requires events != [] && events[|events| - 1].Open? && Inv(events, w)
    requires LoadId(|events| - 1) !in w.loads
    ensures Inv(events, OpenStep(ttl, w, events[|events| - 1].key, |events| - 1))
  {
    UnexpiredTidy(w.cache.entries, w.now, ttl, w.now);
    UnexpiredContents(w.cache.entries, w.now, ttl);
    ExpireKeeps(events, w, Unexpired(w.cache.entries, w.now, ttl));
    MissKeeps(events, w.(cache := w.cache.(entries := Unexpired(w.cache.entries, w.now, ttl))));
  }

  lemma OpenEventKeeps(ttl: int, events: seq<Event>, w: World, e: Event)
    requires Inv(events, w) && e.Open?
    ensures Inv(events + [e], Apply(ttl, w, e, |events|))
  {
    assert LoadId(|events|) !in w.loads by {
      assert LoadKnown(events, w, LoadId(|events|));
    }
    var cleared := if e.force then ForgetStep(w, Some(e.key)) else w;
    assert Inv(events + [e], cleared) by {
      if e.force {
        ForgetKeeps(events, w, e, Some(e.key));
      } else {
        QuietStep(events, w, e, w);
      }
    }
    OpenKeeps(ttl, events + [e], cleared);
  }

  lemma ApplyKeeps(ttl: int, events: seq<Event>, w: World, e: Event)
    requires Inv(events, w)
    ensures Inv(events + [e], Apply(ttl, w, e, |events|))
  {
    match e
    case Tick(dt) => QuietStep(events, w, e, Apply(ttl, w, e, |events|));
    case Open(key, force) =>
      OpenEventKeeps(ttl, events, w, e);
    case Deliver(id, boards) =>
      if id in w.loads && w.loads[id].delivered.None? {
        DeliverKeeps(ttl, events, w, id, boards);
      } else {
        QuietStep(events, w, e, w);
      }
    case Close(id) =>
      if id in w.loads {
        CloseKeeps(events, w, id);
      } else {
        QuietStep(events, w, e, w);
      }
    case Forget(which) => ForgetKeeps(events, w, e, which);
  }

  lemma {:induction false} RunKeeps(ttl: int, events: seq<Event>)
    ensures Inv(events, Run(ttl, events))
  {
    if events != [] {
      var n := |events| - 1;
      RunKeeps(ttl, events[..n]);
      ApplyKeeps(ttl, events[..n], Run(ttl, events[..n]), events[n]);
      assert events[..n] + [events[n]] == events;
    }
  }

  // ---- The guarantees ----

  /**
   In every interleaving, a cached entry is the response to a load that began no earlier than the
   last event that invalidated its key. An older response never replaces a completed refresh and
   never refills a cleared cache.
   */
  lemma Fencing(ttl: int, events: seq<Event>, e: Entry, n: nat)
    requires e in Contents(Run(ttl, events).cache.entries)
    requires n < |events| && Clears(events[n], e.key)
    ensures exists m, d :: n <= m < d < |events| && events[m].Open? && events[m].key == e.key
                           && events[d] == Deliver(LoadId(m), e.boards)
  {
    var w := Run(ttl, events);
    RunKeeps(ttl, events);
    assert Fenced(events, w, e);
    var id := w.origin[e.key];
    assert LoadKnown(events, w, id);
    assert events[w.loads[id].delivered.value] == Deliver(LoadId(id.at), e.boards);
  }

  /** And the other way round: a response is cached exactly if its load is unfinished and nothing
      invalidated its key since the load began. */
  lemma CachedUnlessOvertaken(ttl: int, events: seq<Event>, id: LoadId, boards: Listing)
    requires id in Run(ttl, events).loads && Run(ttl, events).loads[id].delivered.None?
    ensures var w, w' := Run(ttl, events), Run(ttl, events + [Deliver(id, boards)]);
            var key := w.loads[id].key;
            if !w.loads[id].done && !exists n :: id.at < n < |events| && Clears(events[n], key) then
              Lookup(w'.cache.entries, key) == Some(boards) && key in w'.origin && w'.origin[key] == id
            else w'.cache == w.cache
  {
    RunKeeps(ttl, events);
    assert TicketKept(events, Run(ttl, events), id);
    assert (events + [Deliver(id, boards)])[..|events|] == events;
  }

  /** A forced refresh is never served from the cache: it always begins a load. */
  lemma ForcedOpenLoads(ttl: int, events: seq<Event>, n: nat)
    requires n < |events| && events[n].Open? && events[n].force
    ensures LoadId(n) in Run(ttl, events).loads && Run(ttl, events).loads[LoadId(n)].key == events[n].key
  {
    var before, key := Run(ttl, events[..n]), events[n].key;
    var cleared := ForgetStep(before, Some(key));
    WithoutContents(before.cache.entries, key);
    UnexpiredContents(cleared.cache.entries, before.now, ttl);
    assert Get(cleared.cache, key, before.now, ttl).1.None? by {
      if Get(cleared.cache, key, before.now, ttl).1.Some? {
        ReadIsFresh(cleared.cache.entries, key, before.now, ttl);
      }
    }
    assert events[..n + 1][..n] == events[..n];
    assert events[..n + 1][n] == events[n];
    LoadsStay(ttl, events, n + 1, LoadId(n));
  }

  lemma {:induction false} LoadsStay(ttl: int, events: seq<Event>, n: nat, id: LoadId)
    requires n <= |events| && id in Run(ttl, events[..n]).loads
    ensures id in Run(ttl, events).loads
    ensures Run(ttl, events).loads[id].key == Run(ttl, events[..n]).loads[id].key
  {
    if n == |events| {
      assert events[..n] == events;
    } else {
      var front := events[..|events| - 1];
      assert front[..n] == events[..n];
      LoadsStay(ttl, front, n, id);
      assert Run(ttl, events) == Apply(ttl, Run(ttl, front), events[|front|], |front|);
      LoadStays(ttl, front, events[|events| - 1], id);
    }
  }

  lemma LoadStays(ttl: int, events: seq<Event>, e: Event, id: LoadId)
    requires id in Run(ttl, events).loads
    ensures var w, w' := Run(ttl, events), Apply(ttl, Run(ttl, events), e, |events|);
            id in w'.loads && w'.loads[id].key == w.loads[id].key
  {
    assert id.at < |events| by {
      RunKeeps(ttl, events);
      assert LoadKnown(events, Run(ttl, events), id);
    }
    StepKeepsLoad(ttl, Run(ttl, events), e, |events|, id);
  }

  lemma StepKeepsLoad(ttl: int, w: World, e: Event, n: nat, id: LoadId)
    requires id in w.loads && id.at < n
    ensures id in Apply(ttl, w, e, n).loads && Apply(ttl, w, e, n).loads[id].key == w.loads[id].key
  {
  }

  /** The pending table holds exactly the unfinished loads no invalidation has overtaken, and no
      empty set. */
  lemma PendingExact(ttl: int, events: seq<Event>, key: Key, id: LoadId)
    ensures var w := Run(ttl, events);
            && (key in w.cache.pending && id in w.cache.pending[key] <==>
                id in w.loads && w.loads[id].key == key && !w.loads[id].done
                && !exists n :: id.at < n < |events| && Clears(events[n], key))
            && (key in w.cache.pending ==> w.cache.pending[key] != {})
  {
    RunKeeps(ttl, events);
    assert TicketKept(events, Run(ttl, events), id);
  }

  /** The table stays within its size, in creation order, one entry a key. */
  lemma CacheBounds(ttl: int, events: seq<Event>)
    ensures var entries := Run(ttl, events).cache.entries;
            && |entries| <= 256
            && (forall i, j :: 0 <= i < j < |entries| ==> entries[i].key != entries[j].key && entries[i].at <= entries[j].at)
            && forall i :: 0 <= i < |entries| ==> entries[i].at <= Run(ttl, events).now
  {
    RunKeeps(ttl, events);
  }

  /** There is a list for `key` stored less than the time to live ago. */
  ghost predicate HasYoung(w: World, ttl: int, key: Key) {
    exists e :: e in Contents(w.cache.entries) && e.key == key && w.now - e.at < ttl as real
  }

  lemma HitsIfYoung(ttl: int, events: seq<Event>, key: Key)
    ensures var w := Run(ttl, events);
            Get(w.cache, key, w.now, ttl).1.Some? <==> HasYoung(w, ttl, key)
  {
    var w := Run(ttl, events);
    RunKeeps(ttl, events);
    if Get(w.cache, key, w.now, ttl).1.Some? {
      ReadIsFresh(w.cache.entries, key, w.now, ttl);
    }
    if e :| e in Contents(w.cache.entries) && e.key == key && w.now - e.at < ttl as real {
      YoungIsRead(w.cache.entries, e, w.now, ttl);
    }
  }

  lemma RunLast(ttl: int, events: seq<Event>, e: Event)
    ensures Run(ttl, events + [e]) == Apply(ttl, Run(ttl, events), e, |events|)
  {
    assert (events + [e])[..|events|] == events;
  }

  lemma YoungStay(w: World, ttl: int, key: Key)
    ensures Contents(Get(w.cache, key, w.now, ttl).0.entries)
         == set e | e in Contents(w.cache.entries) && w.now - e.at < ttl as real
  {
    UnexpiredContents(w.cache.entries, w.now, ttl);
  }

  lemma OpenStepIs(ttl: int, w: World, key: Key, n: nat)
    ensures var w', got, id := OpenStep(ttl, w, key, n), Get(w.cache, key, w.now, ttl), LoadId(n);
            && w'.cache.entries == got.0.entries
            && (if got.1.Some? then w'.loads == w.loads && w'.cache.pending == w.cache.pending
                else && w'.loads == w.loads[id := Load(key, None, false)] && id in w'.valid
                     && key in w'.cache.pending && id in w'.cache.pending[key])
  {
  }

  /** An unforced read begins a load exactly if no young list is cached; either way the old ones go. */
  lemma OpenExactly(ttl: int, events: seq<Event>, key: Key)
    ensures var w, w', id := Run(ttl, events), Run(ttl, events + [Open(key, false)]), LoadId(|events|);
            && Contents(w'.cache.entries) == (set e | e in Contents(w.cache.entries) && w.now - e.at < ttl as real)
            && (if HasYoung(w, ttl, key) then w'.loads == w.loads && w'.cache.pending == w.cache.pending
                else && w'.loads == w.loads[id := Load(key, None, false)] && id in w'.valid
                     && key in w'.cache.pending && id in w'.cache.pending[key])
  {
    HitsIfYoung(ttl, events, key);
    RunLast(ttl, events, Open(key, false));
    YoungStay(Run(ttl, events), ttl, key);
    OpenStepIs(ttl, Run(ttl, events), key, |events|);
  }

  /** The end of a load takes back its ticket, and nothing else. */
  lemma CloseEnds(ttl: int, events: seq<Event>, id: LoadId)
    requires id in Run(ttl, events).loads
    ensures var w, w' := Run(ttl, events), Run(ttl, events + [Close(id)]);
            && w'.loads == w.loads[id := w.loads[id].(done := true)]
            && w'.valid == w.valid - {id} && w'.cache.entries == w.cache.entries
            && forall key :: key in w'.cache.pending ==>
                 key in w.cache.pending && id !in w'.cache.pending[key] && w'.cache.pending[key] == w.cache.pending[key] - {id}
  {
    var w := Run(ttl, events);
    RunLast(ttl, events, Close(id));
    RunKeeps(ttl, events);
    assert TicketKept(events, w, id);
  }

  /** A hit returns a response stored less than the time to live ago, from a load that no
      invalidation of its key has overtaken. */
  lemma HitIsFresh(ttl: int, events: seq<Event>, key: Key)
    requires Get(Run(ttl, events).cache, key, Run(ttl, events).now, ttl).1.Some?
    ensures ttl > 0
    ensures var w := Run(ttl, events);
            exists e :: e in Contents(w.cache.entries) && e.key == key && w.now - e.at < ttl as real
                        && Get(w.cache, key, w.now, ttl).1 == Some(e.boards) && Fenced(events, w, e)
  {
    var w := Run(ttl, events);
    RunKeeps(ttl, events);
    ReadIsFresh(w.cache.entries, key, w.now, ttl);
    var e :| e in Contents(w.cache.entries) && e.key == key && w.now - e.at < ttl as real
          && Get(w.cache, key, w.now, ttl).1 == Some(e.boards);
    var i := Index(e, w.cache.entries);
    assert Fenced(events, w, e);
  }
}
