/** Finding a board's URL in the backend's board list. */
module Boards {
  import opened Basics
  import opened ResponseIds

  /** One list entry: the values under its id aliases and under its URL aliases. */
  datatype Board = Board(ids: seq<Value>, urls: seq<Value>)

  datatype Lookup = Missing | Found(url: string) | Rejected

  predicate IsUrlChar(ch: char) {
    'a' <= ch <= 'z' || '0' <= ch <= '9' || ch == '_' || ch == '-'
  }

  predicate ValidUrl(s: string) {
    1 <= |s| <= 100 && forall i :: 0 <= i < |s| ==> IsUrlChar(s[i])
  }

  /** All URL aliases the entry uses carry this one valid URL. */
  predicate HasUrl(b: Board, url: string) {
    && Agreed(b.urls, Text(url)) && 1 <= |url| <= 100
    && forall i :: 0 <= i < |url| ==> url[i] in "abcdefghijklmnopqrstuvwxyz0123456789_-"
  }

  lemma UrlCharIs(ch: char)
    ensures IsUrlChar(ch) <==> ch in "abcdefghijklmnopqrstuvwxyz0123456789_-"
  {
  }

  /** The URL of the entry, if it has one. */
  function UrlOf(b: Board): Option<string> {
    if b.urls == [] || (exists i :: 0 <= i < |b.urls| && !(b.urls[i].Text? && b.urls[i] == b.urls[0])) then None
    else if ValidUrl(b.urls[0].s) then Some(b.urls[0].s) else None
  }

  lemma UrlOfExactly(b: Board, url: string)
    ensures UrlOf(b) == Some(url) <==> HasUrl(b, url)
  {
    forall i | 0 <= i < |url| ensures IsUrlChar(url[i]) <==> url[i] in "abcdefghijklmnopqrstuvwxyz0123456789_-" {
      UrlCharIs(url[i]);
    }
    if HasUrl(b, url) {
      assert b.urls[0] == Text(url);
    }
  }

  lemma HasOneUrl(b: Board)
    ensures UrlOf(b).Some? <==> exists url :: HasUrl(b, url)
    ensures forall url :: HasUrl(b, url) ==> UrlOf(b) == Some(url)
  {
    if UrlOf(b).Some? {
      UrlOfExactly(b, UrlOf(b).value);
    }
    forall url | HasUrl(b, url) ensures UrlOf(b) == Some(url) {
      UrlOfExactly(b, url);
    }
  }

  predicate Matches(b: Board, id: int) {
    RequireLongId(b.ids) == Some(id)
  }

  /** An entry the lookup refuses whatever else is in the list. */
  ghost predicate Broken(b: Board, id: int) {
    RequireLongId(b.ids).None? || (Matches(b, id) && forall url :: !HasUrl(b, url))
  }

  ghost predicate Conflict(a: Board, b: Board, id: int) {
    Matches(a, id) && Matches(b, id) && exists u, v :: u != v && HasUrl(a, u) && HasUrl(b, v)
  }

  // ---- What the lookup means, without an order ----

  ghost predicate Refused(boards: seq<Board>, id: int) {
    || (exists i :: 0 <= i < |boards| && Broken(boards[i], id))
    || (exists i, j :: 0 <= i < |boards| && 0 <= j < |boards| && Conflict(boards[i], boards[j], id))
  }

  ghost predicate Agrees(boards: seq<Board>, id: int, url: string) {
    && (exists i :: 0 <= i < |boards| && Matches(boards[i], id))
    && forall i :: 0 <= i < |boards| && Matches(boards[i], id) ==> HasUrl(boards[i], url)
  }

  ghost predicate Means(boards: seq<Board>, id: int, r: Lookup) {
    match r
    case Rejected => Refused(boards, id)
    case Found(url) => !Refused(boards, id) && Agrees(boards, id, url)
    case Missing => !Refused(boards, id) && forall i :: 0 <= i < |boards| ==> !Matches(boards[i], id)
  }

  /** Scan the list, keeping the URL resolved so far; stop at the first contract error. */
  method FindBoardUrl(boards: seq<Board>, expected: string) returns (r: Option<Lookup>)
    ensures r.None? <==> BoardLookupId(expected).None?
    ensures r.Some? ==> Means(boards, BoardLookupId(expected).value, r.value)
  {
    var wanted := BoardLookupId(expected);
    if wanted.None? {
      return None;
    }
    var id, resolved := wanted.value, None;
    for n := 0 to |boards|
      invariant forall i :: 0 <= i < n ==> !Broken(boards[i], id)
      invariant resolved.None? ==> forall i :: 0 <= i < n ==> !Matches(boards[i], id)
      invariant resolved.Some? ==> exists i :: 0 <= i < n && Matches(boards[i], id)
      invariant forall i :: 0 <= i < n && Matches(boards[i], id) ==> resolved.Some? && HasUrl(boards[i], resolved.value)
    {
      var item := boards[n];
      var boardId := RequireLongId(item.ids);
      if boardId.None? {
        assert Broken(boards[n], id);
        return Some(Rejected);
      }
      if boardId.value == id {
        var url := UrlOf(item);
        HasOneUrl(item);
        if url.None? {
          assert Broken(boards[n], id);
          return Some(Rejected);
        }
        assert HasUrl(boards[n], url.value);
        if resolved.Some? && resolved != url {
          ghost var i :| 0 <= i < n && Matches(boards[i], id);
          assert Conflict(boards[i], boards[n], id);
          return Some(Rejected);
        }
        resolved := url;
      }
    }
    NoConflict(boards, id, resolved);
    return Some(if resolved.Some? then Found(resolved.value) else Missing);
  }

  lemma NoConflict(boards: seq<Board>, id: int, resolved: Option<string>)
    requires forall i :: 0 <= i < |boards| ==> !Broken(boards[i], id)
    requires forall i :: 0 <= i < |boards| && Matches(boards[i], id) ==> resolved.Some? && HasUrl(boards[i], resolved.value)
    ensures !Refused(boards, id)
  {
    if i, j :| 0 <= i < |boards| && 0 <= j < |boards| && Conflict(boards[i], boards[j], id) {
      HasOneUrl(boards[i]);
      HasOneUrl(boards[j]);
    }
  }

  /** The same lookup as a function. */
  ghost function Resolve(boards: seq<Board>, id: int): (r: Lookup)
    ensures Means(boards, id, r)
  {
    if Refused(boards, id) then Rejected
    else if exists i :: 0 <= i < |boards| && Matches(boards[i], id) then
      var i :| 0 <= i < |boards| && Matches(boards[i], id);
      assert !Broken(boards[i], id);
      var url :| HasUrl(boards[i], url);
      assert Agrees(boards, id, url) by {
        AllAgree(boards, id, i, url);
      }
      Found(url)
    else Missing
  }

  lemma AllAgree(boards: seq<Board>, id: int, i: nat, url: string)
    requires !Refused(boards, id) && i < |boards| && Matches(boards[i], id) && HasUrl(boards[i], url)
    ensures Agrees(boards, id, url)
  {
    forall j | 0 <= j < |boards| && Matches(boards[j], id) ensures HasUrl(boards[j], url) {
      assert !Broken(boards[j], id) && !Conflict(boards[i], boards[j], id);
      var v :| HasUrl(boards[j], v);
    }
  }

  /** A list has one meaning. */
  lemma MeaningIsUnique(boards: seq<Board>, id: int, a: Lookup, b: Lookup)
    requires Means(boards, id, a) && Means(boards, id, b)
    ensures a == b
  {
    if a.Found? && b.Found? {
      var i :| 0 <= i < |boards| && Matches(boards[i], id);
      HasOneUrl(boards[i]);
    }
  }

  lemma SameMembers(a: seq<Board>, b: seq<Board>, x: Board)
    requires multiset(a) == multiset(b)
    ensures x in a <==> x in b
  {
    assert x in a <==> x in multiset(a);
    assert x in b <==> x in multiset(b);
  }

  lemma IndexIn(x: Board, s: seq<Board>) returns (k: nat)
    requires x in s
    ensures k < |s| && s[k] == x
  {
    k :| 0 <= k < |s| && s[k] == x;
  }

  lemma RefusedPermutes(a: seq<Board>, b: seq<Board>, id: int)
    requires forall x :: x in a ==> x in b
    requires Refused(a, id)
    ensures Refused(b, id)
  {
    if i :| 0 <= i < |a| && Broken(a[i], id) {
      var k := IndexIn(a[i], b);
      assert Broken(b[k], id);
    } else {
      var i, j :| 0 <= i < |a| && 0 <= j < |a| && Conflict(a[i], a[j], id);
      var k := IndexIn(a[i], b);
      var m := IndexIn(a[j], b);
      assert Conflict(b[k], b[m], id);
    }
  }

  lemma FoundPermutes(a: seq<Board>, b: seq<Board>, id: int, url: string)
    requires forall x :: x in a <==> x in b
    requires Agrees(a, id, url)
    ensures Agrees(b, id, url)
  {
    var i :| 0 <= i < |a| && Matches(a[i], id);
    assert a[i] in b;
    forall k | 0 <= k < |b| && Matches(b[k], id) ensures HasUrl(b[k], url) {
      assert b[k] in a;
    }
  }

  /** Reordering the list changes nothing: same success with the same URL, or same failure. */
  lemma OrderIrrelevant(a: seq<Board>, b: seq<Board>, id: int, ra: Lookup, rb: Lookup)
    requires multiset(a) == multiset(b)
    requires Means(a, id, ra) && Means(b, id, rb)
    ensures ra == rb
  {
    forall x ensures x in a <==> x in b {
      SameMembers(a, b, x);
    }
    if Refused(a, id) {
      RefusedPermutes(a, b, id);
    }
    if Refused(b, id) {
      RefusedPermutes(b, a, id);
    }
    if ra.Found? {
      FoundPermutes(a, b, id, ra.url);
    } else if ra.Missing? && rb.Found? {
      FoundPermutes(b, a, id, rb.url);
    }
    if ra.Found? {
      MeaningIsUnique(b, id, Found(ra.url), rb);
    }
  }
}
