/** The cache of board lists: entries that age out, and tickets that fence off stale loads. */
module BoardCache {
  import opened Basics
  import Boards

  /** A token's digest. */
  type Key = string

  type Listing = seq<Boards.Board>

  const MAX_ENTRIES := 256

  datatype Entry = Entry(key: Key, at: real, boards: Listing)

  /** A dictionary in insertion order, and the outstanding load tickets by key. */
  datatype Cache<T> = Cache(entries: seq<Entry>, pending: map<Key, set<T>>)

  // ---- Entries ----

  predicate Overdue(e: Entry, now: real, ttl: int) {
    now - e.at >= ttl as real
  }

  function Unexpired(entries: seq<Entry>, now: real, ttl: int): (r: seq<Entry>)
    ensures |r| <= |entries|
  {
    if entries == [] then []
    else
      var n := |entries| - 1;
      Unexpired(entries[..n], now, ttl) + if Overdue(entries[n], now, ttl) then [] else [entries[n]]
  }

  function Without(entries: seq<Entry>, key: Key): (r: seq<Entry>)
    ensures |r| <= |entries|
  {
    if entries == [] then []
    else
      var n := |entries| - 1;
      Without(entries[..n], key) + if entries[n].key == key then [] else [entries[n]]
  }

  function Lookup(entries: seq<Entry>, key: Key): (r: Option<Listing>)
    ensures r.Some? ==> exists i :: 0 <= i < |entries| && entries[i].key == key && entries[i].boards == r.value
    ensures r.None? ==> forall i :: 0 <= i < |entries| ==> entries[i].key != key
  {
    if entries == [] then None
    else
      var n := |entries| - 1;
      if entries[n].key == key then Some(entries[n].boards) else Lookup(entries[..n], key)
  }

  /** At capacity the first entry makes room. */
  function MakeRoom(entries: seq<Entry>): seq<Entry> {
    if |entries| >= MAX_ENTRIES then entries[1..] else entries
  }

  function Insert(entries: seq<Entry>, key: Key, boards: Listing, now: real, ttl: int): seq<Entry> {
    MakeRoom(Without(Unexpired(entries, now, ttl), key)) + [Entry(key, now, boards)]
  }

  ghost predicate UniqueKeys(entries: seq<Entry>) {
    forall i, j :: 0 <= i < j < |entries| ==> entries[i].key != entries[j].key
  }

  /** Insertion order is creation-time order. */
  ghost predicate InOrder(entries: seq<Entry>) {
    forall i, j :: 0 <= i < j < |entries| ==> entries[i].at <= entries[j].at
  }

  ghost predicate Tidy(entries: seq<Entry>, now: real) {
    && |entries| <= MAX_ENTRIES && UniqueKeys(entries) && InOrder(entries)
    && forall i :: 0 <= i < |entries| ==> entries[i].at <= now
  }

  ghost function Contents(entries: seq<Entry>): (r: set<Entry>)
    ensures forall i :: 0 <= i < |entries| ==> entries[i] in r
  {
    if entries == [] then {} else Contents(entries[..|entries| - 1]) + {entries[|entries| - 1]}
  }

  lemma {:induction false} Index(e: Entry, entries: seq<Entry>) returns (k: nat)
    requires e in Contents(entries)
    ensures k < |entries| && entries[k] == e
  {
    if e == entries[|entries| - 1] {
      k := |entries| - 1;
    } else {
      k := Index(e, entries[..|entries| - 1]);
    }
  }

  lemma {:induction false} UnexpiredContents(entries: seq<Entry>, now: real, ttl: int)
    ensures Contents(Unexpired(entries, now, ttl)) == set e | e in Contents(entries) && !Overdue(e, now, ttl)
  {
    if entries != [] {
      var n := |entries| - 1;
      var front, last := entries[..n], entries[n];
      UnexpiredContents(front, now, ttl);
      var kept := Unexpired(front, now, ttl);
      if Overdue(last, now, ttl) {
        assert Unexpired(entries, now, ttl) == kept;
      } else {
        assert (kept + [last])[..|kept|] == kept;
      }
    }
  }

  lemma {:induction false} WithoutContents(entries: seq<Entry>, key: Key)
    ensures Contents(Without(entries, key)) == set e | e in Contents(entries) && e.key != key
  {
    if entries != [] {
      var n := |entries| - 1;
      var front, last := entries[..n], entries[n];
      WithoutContents(front, key);
      var kept := Without(front, key);
      if last.key == key {
        assert Without(entries, key) == kept;
      } else {
        assert (kept + [last])[..|kept|] == kept;
      }
    }
  }

  /** `e` may come after everything in `entries`. */
  ghost predicate Follows(entries: seq<Entry>, e: Entry) {
    forall i :: 0 <= i < |entries| ==> entries[i].key != e.key && entries[i].at <= e.at
  }

  lemma AppendTidy(entries: seq<Entry>, e: Entry, now: real)
    requires Tidy(entries, now) && |entries| < MAX_ENTRIES && e.at <= now && Follows(entries, e)
    ensures Tidy(entries + [e], now)
  {
  }

  lemma SubsetFollows(kept: seq<Entry>, entries: seq<Entry>, e: Entry)
    requires Contents(kept) <= Contents(entries) && Follows(entries, e)
    ensures Follows(kept, e)
  {
    forall i | 0 <= i < |kept|
      ensures kept[i].key != e.key && kept[i].at <= e.at
    {
      var k := Index(kept[i], entries);
    }
  }

  lemma {:induction false} WithoutTidy(entries: seq<Entry>, key: Key, now: real)
    requires Tidy(entries, now)
    ensures Tidy(Without(entries, key), now)
  {
    if entries != [] {
      var n := |entries| - 1;
      var front, last := entries[..n], entries[n];
      WithoutTidy(front, key, now);
      assert Follows(Without(front, key), last) by {
        WithoutContents(front, key);
        SubsetFollows(Without(front, key), front, last);
      }
      assert |Without(front, key)| <= |front|;
      AppendTidy(Without(front, key), last, now);
      assert Without(entries, key) == if last.key == key then Without(front, key) else Without(front, key) + [last];
    }
  }

  lemma {:induction false} UnexpiredTidy(entries: seq<Entry>, later: real, ttl: int, now: real)
    requires Tidy(entries, now)
    ensures Tidy(Unexpired(entries, later, ttl), now)
  {
    if entries != [] {
      var n := |entries| - 1;
      var front, last := entries[..n], entries[n];
      UnexpiredTidy(front, later, ttl, now);
      assert Follows(Unexpired(front, later, ttl), last) by {
        UnexpiredContents(front, later, ttl);
        SubsetFollows(Unexpired(front, later, ttl), front, last);
      }
      assert |Unexpired(front, later, ttl)| <= |front|;
      AppendTidy(Unexpired(front, later, ttl), last, now);
      assert Unexpired(entries, later, ttl)
          == if Overdue(last, later, ttl) then Unexpired(front, later, ttl) else Unexpired(front, later, ttl) + [last];
    }
  }

  lemma InsertTidy(entries: seq<Entry>, key: Key, boards: Listing, from: real, now: real, ttl: int)
    requires Tidy(entries, from) && from <= now
    ensures Tidy(Insert(entries, key, boards, now, ttl), now)
  {
    var live := Unexpired(entries, now, ttl);
    var kept := Without(live, key);
    UnexpiredTidy(entries, now, ttl, now);
    WithoutTidy(live, key, now);
    forall i | 0 <= i < |kept| ensures kept[i].key != key {
      WithoutContents(live, key);
    }
    AppendTidy(MakeRoom(kept), Entry(key, now, boards), now);
  }

  lemma MakeRoomContents(entries: seq<Entry>, from: real, x: Entry)
    requires Tidy(entries, from) && x.at >= from && x.key !in (set e | e in Contents(entries) :: e.key)
    ensures var r := MakeRoom(entries) + [x];
            && (|entries| < MAX_ENTRIES ==> Contents(r) == Contents(entries) + {x})
            && (|entries| == MAX_ENTRIES ==>
                  && |r| == MAX_ENTRIES
                  && Contents(r) == Contents(entries) - {entries[0]} + {x}
                  && forall e :: e in Contents(r) ==> entries[0].at <= e.at)
  {
    var kept := MakeRoom(entries);
    assert (kept + [x])[..|kept|] == kept;
    if |entries| == MAX_ENTRIES {
      forall e | e in Contents(kept) ensures e in Contents(entries) && e != entries[0] && entries[0].at <= e.at {
        var k := Index(e, kept);
        assert kept[k] == entries[k + 1];
      }
      forall e | e in Contents(entries) && e != entries[0] ensures e in Contents(kept) {
        var k := Index(e, entries);
        assert kept[k - 1] == entries[k];
      }
    }
  }

  /**
   An insertion loses the expired entries, the old entry of the same key and, only when the cache
   is full without them, one more: the first, which is an oldest one.
   */
  lemma EvictsOldest(entries: seq<Entry>, key: Key, boards: Listing, from: real, now: real, ttl: int)
    requires Tidy(entries, from) && from <= now
    ensures var kept := set e | e in Contents(entries) && now - e.at < ttl as real && e.key != key;
            var after := Insert(entries, key, boards, now, ttl);
            || Contents(after) == kept + {Entry(key, now, boards)}
            || (|after| == 256
                && exists out :: out in kept && Contents(after) == kept - {out} + {Entry(key, now, boards)}
                                 && forall e :: e in Contents(after) ==> out.at <= e.at)
  {
    var live := Unexpired(entries, now, ttl);
    var kept := Without(live, key);
    UnexpiredTidy(entries, now, ttl, now);
    WithoutTidy(live, key, now);
    UnexpiredContents(entries, now, ttl);
    WithoutContents(live, key);
    MakeRoomContents(kept, now, Entry(key, now, boards));
  }

  /** Whatever a read returns is younger than its time to live, and was stored for that key. */
  lemma ReadIsFresh(entries: seq<Entry>, key: Key, now: real, ttl: int)
    requires Lookup(Unexpired(entries, now, ttl), key).Some?
    ensures exists e :: e in Contents(entries) && e.key == key && now - e.at < ttl as real
                     && e.boards == Lookup(Unexpired(entries, now, ttl), key).value
  {
    var live := Unexpired(entries, now, ttl);
    var i :| 0 <= i < |live| && live[i].key == key && live[i].boards == Lookup(live, key).value;
    UnexpiredContents(entries, now, ttl);
    assert live[i] in Contents(entries);
  }

  /** And whatever is younger is what a read returns. */
  lemma YoungIsRead(entries: seq<Entry>, e: Entry, now: real, ttl: int)
    requires UniqueKeys(entries) && e in Contents(entries) && now - e.at < ttl as real
    ensures Lookup(Unexpired(entries, now, ttl), e.key) == Some(e.boards)
  {
    var live := Unexpired(entries, now, ttl);
    UnexpiredContents(entries, now, ttl);
    var k := Index(e, live);
    assert live[k].key == e.key;
    var i :| 0 <= i < |live| && live[i].key == e.key && live[i].boards == Lookup(live, e.key).value;
    assert live[i] in Contents(entries);
    var a := Index(live[i], entries);
    var b := Index(e, entries);
  }

  /** A read returns exactly the entry of its key that is younger than the time to live. */
  lemma ReadExactly(entries: seq<Entry>, key: Key, now: real, ttl: int, boards: Listing)
    requires UniqueKeys(entries)
    ensures Lookup(Unexpired(entries, now, ttl), key) == Some(boards)
       <==> exists e :: e in Contents(entries) && e.key == key && now - e.at < ttl as real && e.boards == boards
  {
    if Lookup(Unexpired(entries, now, ttl), key) == Some(boards) {
      ReadIsFresh(entries, key, now, ttl);
    }
    if e :| e in Contents(entries) && e.key == key && now - e.at < ttl as real && e.boards == boards {
      YoungIsRead(entries, e, now, ttl);
    }
  }

  lemma {:induction false} WithoutAppend(a: seq<Entry>, b: seq<Entry>, key: Key)
    ensures Without(a + b, key) == Without(a, key) + Without(b, key)
  {
    if b == [] {
      assert a + b == a;
    } else {
      var n := |b| - 1;
      assert (a + b)[..|a + b| - 1] == a + b[..n];
      WithoutAppend(a, b[..n], key);
    }
  }

  lemma {:induction false} WithoutAbsent(a: seq<Entry>, key: Key)
    requires forall i :: 0 <= i < |a| ==> a[i].key != key
    ensures Without(a, key) == a
  {
    if a != [] {
      WithoutAbsent(a[..|a| - 1], key);
    }
  }

  lemma WithoutMiddle(a: seq<Entry>, x: Entry, rest: seq<Entry>)
    requires forall i :: 0 <= i < |a| ==> a[i].key != x.key
    requires forall i :: 0 <= i < |rest| ==> rest[i].key != x.key
    ensures Without(a + [x] + rest, x.key) == a + rest
  {
    WithoutAppend(a + [x], rest, x.key);
    assert Without(a + [x], x.key) == Without(a, x.key) by {
      assert (a + [x])[..|a|] == a;
    }
    WithoutAbsent(a, x.key);
    WithoutAbsent(rest, x.key);
  }

  lemma UnexpiredNext(items: seq<Entry>, n: nat, now: real, ttl: int)
    requires n < |items|
    ensures Unexpired(items[..n + 1], now, ttl)
         == Unexpired(items[..n], now, ttl) + if Overdue(items[n], now, ttl) then [] else [items[n]]
  {
    assert items[..n + 1][..n] == items[..n];
  }

  lemma Shift(kept: seq<Entry>, items: seq<Entry>, n: nat)
    requires n < |items|
    ensures kept + items[n..] == (kept + [items[n]]) + items[n + 1..]
  {
  }

  /** Deleting the next item of a walk over `items`, when `kept` is what is left of those before. */
  lemma DeleteNext(kept: seq<Entry>, items: seq<Entry>, n: nat)
    requires UniqueKeys(items) && n < |items| && Contents(kept) <= Contents(items[..n])
    ensures Without(kept + items[n..], items[n].key) == kept + items[n + 1..]
  {
    var x, rest := items[n], items[n + 1..];
    assert kept + items[n..] == kept + [x] + rest;
    forall i | 0 <= i < |kept| ensures kept[i].key != x.key {
      var k := Index(kept[i], items[..n]);
      assert items[k] == kept[i];
    }
    WithoutMiddle(kept, x, rest);
  }

  // ---- Tickets ----

  function AddTicket<T>(pending: map<Key, set<T>>, key: Key, ticket: T): map<Key, set<T>> {
    pending[key := if key in pending then pending[key] + {ticket} else {ticket}]
  }

  function DropTicket<T>(pending: map<Key, set<T>>, key: Key, ticket: T): map<Key, set<T>> {
    if key !in pending then pending
    else if pending[key] - {ticket} == {} then pending - {key}
    else pending[key := pending[key] - {ticket}]
  }

  /** The tickets an invalidation revokes: one key's, or all of them. */
  ghost function Revoked<T>(pending: map<Key, set<T>>, which: Option<Key>): set<T> {
    match which
    case None => set key, t | key in pending && t in pending[key] :: t
    case Some(key) => if key in pending then pending[key] else {}
  }

  // ---- Operations ----

  function Begin<T>(c: Cache<T>, key: Key, ticket: T): Cache<T> {
    c.(pending := AddTicket(c.pending, key, ticket))
  }

  function Finish<T>(c: Cache<T>, key: Key, ticket: T): Cache<T> {
    c.(pending := DropTicket(c.pending, key, ticket))
  }

  function Get<T>(c: Cache<T>, key: Key, now: real, ttl: int): (Cache<T>, Option<Listing>) {
    var entries := Unexpired(c.entries, now, ttl);
    (c.(entries := entries), Lookup(entries, key))
  }

  function Put<T>(c: Cache<T>, key: Key, boards: Listing, admitted: bool, now: real, ttl: int): Cache<T> {
    if admitted then c.(entries := Insert(c.entries, key, boards, now, ttl)) else c
  }

  function Clear<T>(c: Cache<T>, which: Option<Key>): Cache<T> {
    match which
    case None => Cache([], map[])
    case Some(key) => Cache(Without(c.entries, key), c.pending - {key})
  }

  // ---- The cache in place ----

  class Ticket {
    const key: Key
    var valid: bool

    constructor (key: Key)
      ensures this.key == key && valid
    {
      this.key, valid := key, true;
    }
  }

  class Store {
    const ttl: int
    var entries: seq<Entry>
    var pending: map<Key, set<Ticket>>
    ghost var clock: real

    ghost function Tickets(): set<Ticket>
      reads this
    {
      Revoked(pending, None)
    }

    ghost function View(): Cache<Ticket>
      reads this
    {
      Cache(entries, pending)
    }

    /** Entries are in creation order; pending tickets are valid ones under their own key, and no key
        keeps an empty set. */
    ghost predicate Valid()
      reads this, Tickets()
    {
      && Tidy(entries, clock)
      && forall key :: key in pending ==>
           && pending[key] != {}
           && forall t :: t in pending[key] ==> t in Tickets() && t.key == key && t.valid
    }

    constructor (ttl: int)
      ensures Valid() && this.ttl == ttl && clock == 0.0 && View() == Cache([], map[])
    {
      this.ttl, entries, pending, clock := ttl, [], map[], 0.0;
    }

    method BeginLoad(key: Key) returns (ticket: Ticket)
      requires Valid()
      modifies this`pending
      ensures Valid() && fresh(ticket) && ticket.key == key && ticket.valid
      ensures View() == Begin(old(View()), key, ticket)
    {
      ticket := new Ticket(key);
      pending := AddTicket(pending, key, ticket);
    }

    method FinishLoad(ticket: Ticket)
      requires Valid()
      modifies this`pending, ticket
      ensures Valid() && !ticket.valid
      ensures View() == Finish(old(View()), ticket.key, ticket)
    {
      pending := DropTicket(pending, ticket.key, ticket);
      ticket.valid := false;
    }

    method ExpireEntries(now: real)
      requires Valid() && clock <= now
      modifies this`entries, this`clock
      ensures Valid() && clock == now && entries == Unexpired(old(entries), now, ttl)
    {
      UnexpiredTidy(entries, now, ttl, now);
      DeleteExpired(now);
      clock := now;
    }

    method DeleteExpired(now: real)
      requires UniqueKeys(entries)
      modifies this`entries
      ensures entries == Unexpired(old(entries), now, ttl)
    {
      var items := entries;
      ghost var kept: seq<Entry> := [];
      for n := 0 to |items|
        invariant kept == Unexpired(items[..n], now, ttl)
        invariant entries == kept + items[n..]
      {
        UnexpiredNext(items, n, now, ttl);
        if Overdue(items[n], now, ttl) {
          DeleteNext(kept, items, n) by {
            UnexpiredContents(items[..n], now, ttl);
          }
          entries := Without(entries, items[n].key);
        } else {
          Shift(kept, items, n);
          kept := kept + [items[n]];
        }
      }
      assert items[..|items|] == items;
    }

    method GetBoards(key: Key, now: real) returns (boards: Option<Listing>)
      requires Valid() && clock <= now
      modifies this`entries, this`clock
      ensures Valid() && clock == now && (View(), boards) == Get(old(View()), key, now, ttl)
    {
      ExpireEntries(now);
      boards := Lookup(entries, key);
    }

    method SetBoards(boards: Listing, key: Key, ticket: Ticket?, now: real)
      requires Valid() && clock <= now
      modifies this`entries, this`clock
      ensures Valid() && clock <= now
      ensures View() == Put(old(View()), key, boards, ticket == null || (ticket.valid && ticket.key == key), now, ttl)
    {
      if ticket != null && (!ticket.valid || ticket.key != key) {
        return;
      }
      InsertTidy(entries, key, boards, clock, now, ttl);
      ExpireEntries(now);
      entries := Without(entries, key);
      if |entries| >= MAX_ENTRIES {
        entries := entries[1..];
      }
      entries := entries + [Entry(key, now, boards)];
    }

    method ClearBoards(which: Option<Key>)
      requires Valid()
      modifies this, Tickets()
      ensures Valid() && View() == Clear(old(View()), which)
      ensures forall t :: t in Revoked(old(pending), which) ==> !t.valid
      ensures forall t :: t in old(Tickets()) && t !in Revoked(old(pending), which) ==> t.valid
    {
      ghost var before := pending;
      var revoked: set<Ticket> := {};
      match which {
        case None =>
          revoked := set key, t | key in pending && t in pending[key] :: t;
          entries, pending := [], map[];
        case Some(key) =>
          WithoutTidy(entries, key, clock);
          entries := Without(entries, key);
          revoked := if key in pending then pending[key] else {};
          pending := pending - {key};
      }
      assert revoked == Revoked(before, which);
      assert forall key, t :: key in pending && t in pending[key] ==> t !in revoked;
      Revoke(revoked);
    }
  }

  method Revoke(tickets: set<Ticket>)
    modifies tickets
    ensures forall t :: t in tickets ==> !t.valid
  {
    var todo := tickets;
    while todo != {}
      invariant todo <= tickets
      invariant forall t :: t in tickets && t !in todo ==> !t.valid
      decreases |todo|
    {
      var t := Take(todo);
      t.valid := false;
      todo := todo - {t};
    }
  }
}
