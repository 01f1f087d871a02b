/** Comment trees in backend responses: identity checks, and what the tools return. */
module Comments {
  import opened Basics
  import opened Answers
  import opened ResponseIds

  /** A comment object: the values under each group of alias keys, the text fields, the two child
      collections if present, and everything else. `status` is in upper case, and "" if absent or
      empty; `convertible` says whether flags, counts, depth, author and times all convert. */
  datatype Item = Item(ids: seq<Value>, posts: seq<Value>, parents: seq<Value>,
                       status: string, legacyDeleted: bool, content: string, convertible: bool,
                       children: Option<Collection>, replies: Option<Collection>, rest: string)

  /** A list of objects, or anything else. */
  datatype Collection = List(items: seq<Item>) | NoList

  datatype Comment = Comment(id: string, post: string, parent: Option<string>,
                             content: string, status: string, isDeleted: bool, replies: seq<Comment>)

  /** The collection the tree goes on with; `children` has precedence. */
  function ChildCollection(item: Item): Collection {
    if item.children.Some? then item.children.value
    else if item.replies.Some? then item.replies.value
    else List([])
  }

  function Kids(item: Item): (r: seq<Item>)
    ensures forall i :: 0 <= i < |r| ==> r[i] < item
  {
    if ChildCollection(item).List? then ChildCollection(item).items else []
  }

  function StatusOf(item: Item): string {
    if item.status != "" then item.status else if item.legacyDeleted then "DELETED" else "ACTIVE"
  }

  /** One object on its own, without its children. */
  function ToComment(item: Item): Option<Comment> {
    var parent, id, post := OptionalLongId(item.parents), RequireLongId(item.ids), RequireLongId(item.posts);
    if parent.Malformed? || id.None? || !item.convertible then None
    else if parent.Present? && Digits(parent.n) == Digits(id.value) then None
    else if post.None? then None
    else
      var status := StatusOf(item);
      Some(Comment(Digits(id.value), Digits(post.value),
                   if parent.Present? then Some(Digits(parent.n)) else None,
                   if status == "ACTIVE" then item.content else "", status, status == "DELETED", []))
  }

  /** The whole tree, or None for any contract error in it. */
  function Sanitize(item: Item, post: Option<string>, parent: Option<string>, rootsOnly: bool): Option<Comment>
    decreases item
  {
    var kids, c := Kids(item), ToComment(item);
    if item.children.Some? && item.replies.Some? && item.children != item.replies then None
    else if ChildCollection(item).NoList? || c.None? then None
    else if post.Some? && RequireTargetId(item.posts, post.value).None? then None
    else if parent.Some? && RequireTargetId(item.parents, parent.value).None? then None
    else if parent.None? && rootsOnly && c.value.parent.Some? then None
    else if exists i :: 0 <= i < |kids|
              && Sanitize(kids[i], Some(c.value.post), Some(c.value.id), false).None? then None
    else Some(c.value.(replies := seq(|kids|, i requires 0 <= i < |kids| =>
           Sanitize(kids[i], Some(c.value.post), Some(c.value.id), false).value)))
  }

  /** A page: each tree in turn, all of them on the post of the first unless one was asked for. */
  method FilterComments(page: seq<Item>, post: Option<string>, parent: Option<string>, rootsOnly: bool)
    returns (r: Option<seq<Comment>>)
    ensures r.Some? <==> exists p :: PageFits(page, p, post, parent, rootsOnly)
    ensures r.Some? ==> MirrorsAll(page, r.value)
  {
    var comments: seq<Comment> := [];
    var pagePost := post;
    ghost var first := if page != [] && RequireLongId(page[0].posts).Some? then RequireLongId(page[0].posts).value
                       else 0;
    for n := 0 to |page|
      invariant pagePost == if n == 0 then post else Some(Digits(first))
      invariant MirrorsAll(page[..n], comments)
      invariant PageFits(page[..n], first, post, parent, rootsOnly)
    {
      var c := Sanitize(page[n], pagePost, parent, rootsOnly);
      if c.None? {
        PageRejected(page, n, first, post, parent, rootsOnly);
        return None;
      }
      PageExtended(page, comments, n, first, post, parent, rootsOnly);
      pagePost := Some(c.value.post);
      comments := comments + [c.value];
    }
    assert page[..|page|] == page;
    return Some(comments);
  }

  // ---- The identity rules ----

  /** The object itself is sound: one child list, valid ids, not its own parent, and displayable. */
  predicate Sound(item: Item) {
    && !(item.children.Some? && item.replies.Some? && item.children != item.replies)
    && (item.children.Some? ==> item.children.value.List?)
    && (item.children.None? && item.replies.Some? ==> item.replies.value.List?)
    && item.convertible
    && RequireLongId(item.ids).Some? && RequireLongId(item.posts).Some?
    && !OptionalLongId(item.parents).Malformed?
    && OptionalLongId(item.parents) != Present(RequireLongId(item.ids).value)
  }

  /** Every object of the tree is sound and on the post, and names its tree parent as its parent. */
  ghost predicate Tree(item: Item, post: int)
    decreases item
  {
    && Sound(item) && RequireLongId(item.posts) == Some(post)
    && forall i :: 0 <= i < |Kids(item)| ==>
         && Tree(Kids(item)[i], post)
         && OptionalLongId(Kids(item)[i].parents) == Present(RequireLongId(item.ids).value)
  }

  predicate Names(text: string, n: int) {
    IsDecimal(text) && Nat(text) == n
  }

  /** The root's parent: the one asked for, or none where only roots may appear. */
  predicate RootFits(item: Item, parent: Option<string>, rootsOnly: bool) {
    var p := OptionalLongId(item.parents);
    if parent.Some? then p.Present? && Names(parent.value, p.n) else rootsOnly ==> p.Absent?
  }

  ghost predicate Fits(item: Item, p: int, post: Option<string>, parent: Option<string>, rootsOnly: bool) {
    Tree(item, p) && RootFits(item, parent, rootsOnly) && (post.Some? ==> Names(post.value, p))
  }

  /** All trees on one post. */
  ghost predicate PageFits(page: seq<Item>, p: int, post: Option<string>, parent: Option<string>, rootsOnly: bool) {
    forall i :: 0 <= i < |page| ==> Fits(page[i], p, post, parent, rootsOnly)
  }

  /** A status is kept; without one the comment is deleted exactly if the legacy flag is set, and is
      active otherwise. It has the item's text if it is active, and else none. */
  predicate Shown(item: Item, c: Comment) {
    && (item.status != "" ==> c.status == item.status)
    && (item.status == "" ==> (c.isDeleted <==> item.legacyDeleted) && (!c.isDeleted ==> c.status == "ACTIVE"))
    && (c.isDeleted <==> c.status == "DELETED")
    && (c.status == "ACTIVE" ==> c.content == item.content)
    && (c.status != "ACTIVE" ==> c.content == "")
  }

  /** Which objects are the children of an accepted one: those under `children` if it is there, else
      those under `replies`, else none. */
  lemma KidsAre(item: Item)
    requires Sound(item)
    ensures item.children.Some? ==> item.children == Some(List(Kids(item)))
    ensures item.children.None? && item.replies.Some? ==> item.replies == Some(List(Kids(item)))
    ensures item.children.None? && item.replies.None? ==> Kids(item) == []
  {
  }

  /** The comment has the item's identities, its text if it is active, and its children, in order. */
  ghost predicate Mirrors(item: Item, c: Comment)
    decreases item
  {
    var id, post, parent := RequireLongId(item.ids), RequireLongId(item.posts), OptionalLongId(item.parents);
    && id.Some? && post.Some? && !parent.Malformed?
    && c.id == Digits(id.value) && c.post == Digits(post.value)
    && c.parent == (if parent.Present? then Some(Digits(parent.n)) else None)
    && Shown(item, c)
    && |c.replies| == |Kids(item)|
    && forall i :: 0 <= i < |Kids(item)| ==> Mirrors(Kids(item)[i], c.replies[i])
  }

  ghost predicate MirrorsAll(page: seq<Item>, comments: seq<Comment>) {
    |comments| == |page| && forall i :: 0 <= i < |page| ==> Mirrors(page[i], comments[i])
  }

  // ---- Sanitizing is checking the rules ----

  lemma TargetNames(values: seq<Value>, expected: string)
    ensures RequireTargetId(values, expected).Some? <==>
            RequireLongId(values).Some? && Names(expected, RequireLongId(values).value)
  {
    TargetIdIsNumeric(values, expected);
  }

  lemma NamesDigits(n: nat, m: int)
    ensures Names(Digits(n), m) <==> n == m
  {
    NatDigits(n);
  }

  lemma PresentIsLong(values: seq<Value>)
    ensures OptionalLongId(values).Present? <==> RequireLongId(values).Some?
    ensures RequireLongId(values).Some? ==> OptionalLongId(values) == Present(RequireLongId(values).value)
  {
  }

  /** The checks on one object and its child list, before the children are looked at. */
  predicate Passes(item: Item, post: Option<string>, parent: Option<string>, rootsOnly: bool) {
    var c := ToComment(item);
    && !(item.children.Some? && item.replies.Some? && item.children != item.replies)
    && ChildCollection(item).List? && c.Some?
    && (post.Some? ==> RequireTargetId(item.posts, post.value).Some?)
    && (if parent.Some? then RequireTargetId(item.parents, parent.value).Some?
        else rootsOnly ==> c.value.parent.None?)
  }

  lemma PassesExactly(item: Item, post: Option<string>, parent: Option<string>, rootsOnly: bool)
    ensures Passes(item, post, parent, rootsOnly) <==>
            Sound(item) && RootFits(item, parent, rootsOnly)
            && (post.Some? ==> Names(post.value, RequireLongId(item.posts).value))
  {
    PresentIsLong(item.parents);
    if post.Some? {
      TargetNames(item.posts, post.value);
    }
    if parent.Some? {
      TargetNames(item.parents, parent.value);
    }
    var p, id := OptionalLongId(item.parents), RequireLongId(item.ids);
    if p.Present? && id.Some? && Digits(p.n) == Digits(id.value) {
      DigitsInjective(p.n, id.value);
    }
  }

  lemma {:induction false} SanitizeExactly(item: Item, post: Option<string>, parent: Option<string>, rootsOnly: bool)
    ensures var r := Sanitize(item, post, parent, rootsOnly);
            && (r.Some? <==> RequireLongId(item.posts).Some?
                             && Fits(item, RequireLongId(item.posts).value, post, parent, rootsOnly))
            && (r.Some? ==> Mirrors(item, r.value))
    decreases item, 0
  {
    var kids, c, r := Kids(item), ToComment(item), Sanitize(item, post, parent, rootsOnly);
    PassesExactly(item, post, parent, rootsOnly);
    if Passes(item, post, parent, rootsOnly) {
      var id, p := RequireLongId(item.ids).value, RequireLongId(item.posts).value;
      forall i | 0 <= i < |kids|
        ensures var k := Sanitize(kids[i], Some(c.value.post), Some(c.value.id), false);
                && (k.Some? <==> Tree(kids[i], p) && OptionalLongId(kids[i].parents) == Present(id))
                && (k.Some? ==> Mirrors(kids[i], k.value))
      {
        KidExactly(kids[i], p, id);
      }
      assert r.Some? <==> Tree(item, p);
    } else {
      assert r.None?;
    }
  }

  lemma KidExactly(kid: Item, p: nat, id: nat)
    ensures var r := Sanitize(kid, Some(Digits(p)), Some(Digits(id)), false);
            && (r.Some? <==> Tree(kid, p) && OptionalLongId(kid.parents) == Present(id))
            && (r.Some? ==> Mirrors(kid, r.value))
    decreases kid, 1
  {
    SanitizeExactly(kid, Some(Digits(p)), Some(Digits(id)), false);
    NamesDigits(p, if RequireLongId(kid.posts).Some? then RequireLongId(kid.posts).value else 0);
    NamesDigits(id, if OptionalLongId(kid.parents).Present? then OptionalLongId(kid.parents).n else 0);
  }

  /** Once a tree is accepted, asking for its post is asking for the page's one post. */
  lemma FitsRunning(item: Item, p: int, first: nat, post: Option<string>, parent: Option<string>, rootsOnly: bool,
                    isFirst: bool)
    requires !isFirst && post.Some? ==> Names(post.value, first)
    ensures Fits(item, p, if isFirst then post else Some(Digits(first)), parent, rootsOnly)
            <==> Fits(item, p, post, parent, rootsOnly) && (!isFirst ==> p == first)
  {
    NamesDigits(first, p);
  }

  lemma PageRejected(page: seq<Item>, n: nat, first: nat, post: Option<string>, parent: Option<string>, rootsOnly: bool)
    requires n < |page| && (n > 0 ==> RequireLongId(page[0].posts) == Some(first))
    requires PageFits(page[..n], first, post, parent, rootsOnly)
    requires Sanitize(page[n], if n == 0 then post else Some(Digits(first)), parent, rootsOnly).None?
    ensures forall p :: !PageFits(page, p, post, parent, rootsOnly)
  {
    SanitizeExactly(page[n], if n == 0 then post else Some(Digits(first)), parent, rootsOnly);
    forall p ensures !PageFits(page, p, post, parent, rootsOnly) {
      if n > 0 {
        assert page[..n][0] == page[0];
        assert Fits(page[..n][0], first, post, parent, rootsOnly);
      }
      FitsRunning(page[n], p, first, post, parent, rootsOnly, n == 0);
      assert !Fits(page[n], p, post, parent, rootsOnly) || (n > 0 && p != first);
    }
  }

  lemma PageExtended(page: seq<Item>, comments: seq<Comment>, n: nat, first: nat, post: Option<string>,
                     parent: Option<string>, rootsOnly: bool)
    requires n < |page| && (RequireLongId(page[0].posts).Some? ==> RequireLongId(page[0].posts) == Some(first))
    requires MirrorsAll(page[..n], comments) && PageFits(page[..n], first, post, parent, rootsOnly)
    requires Sanitize(page[n], if n == 0 then post else Some(Digits(first)), parent, rootsOnly).Some?
    ensures var c := Sanitize(page[n], if n == 0 then post else Some(Digits(first)), parent, rootsOnly).value;
            && c.post == Digits(first) && MirrorsAll(page[..n + 1], comments + [c])
            && PageFits(page[..n + 1], first, post, parent, rootsOnly)
  {
    var running := if n == 0 then post else Some(Digits(first));
    var c := Sanitize(page[n], running, parent, rootsOnly).value;
    SanitizeExactly(page[n], running, parent, rootsOnly);
    assert Fits(page[n], first, post, parent, rootsOnly) by {
      var p := RequireLongId(page[n].posts).value;
      if n > 0 {
        assert Fits(page[..n][0], first, post, parent, rootsOnly);
      }
      FitsRunning(page[n], p, first, post, parent, rootsOnly, n == 0);
    }
    OneMore(page, comments, c, n, first, post, parent, rootsOnly);
  }

  lemma OneMore(page: seq<Item>, comments: seq<Comment>, c: Comment, n: nat, p: int, post: Option<string>,
                parent: Option<string>, rootsOnly: bool)
    requires n < |page| && MirrorsAll(page[..n], comments) && PageFits(page[..n], p, post, parent, rootsOnly)
    requires Mirrors(page[n], c) && Fits(page[n], p, post, parent, rootsOnly)
    ensures MirrorsAll(page[..n + 1], comments + [c]) && PageFits(page[..n + 1], p, post, parent, rootsOnly)
  {
    forall i | 0 <= i < n + 1
      ensures Mirrors(page[..n + 1][i], (comments + [c])[i])
      ensures Fits(page[..n + 1][i], p, post, parent, rootsOnly)
    {
      if i < n {
        assert page[..n + 1][i] == page[..n][i];
      }
    }
  }

  // ---- What an accepted page looks like ----

  /** One post throughout, replies under their parents and nobody their own parent, and no text
      unless active. */
  ghost predicate Rooted(c: Comment, post: string)
    decreases c
  {
    && c.post == post && c.parent != Some(c.id)
    && (c.status != "ACTIVE" ==> c.content == "")
    && forall i :: 0 <= i < |c.replies| ==> c.replies[i].parent == Some(c.id) && Rooted(c.replies[i], post)
  }

  lemma {:induction false} MirrorsRooted(item: Item, c: Comment, p: nat)
    requires Tree(item, p) && Mirrors(item, c)
    ensures Rooted(c, Digits(p))
    decreases item
  {
    if c.parent.Some? && c.parent.value == c.id {
      DigitsInjective(OptionalLongId(item.parents).n, RequireLongId(item.ids).value);
    }
    forall i | 0 <= i < |c.replies|
      ensures c.replies[i].parent == Some(c.id) && Rooted(c.replies[i], Digits(p))
    {
      MirrorsRooted(Kids(item)[i], c.replies[i], p);
    }
  }

  /**
   Every comment of an accepted page, at any depth, is on the same post, under its own tree parent
   and without text unless active; the roots have the parent that was asked for, or none on a page
   of roots.
   */
  lemma PageRooted(page: seq<Item>, comments: seq<Comment>, p: nat, post: Option<string>, parent: Option<string>,
                   rootsOnly: bool)
    requires PageFits(page, p, post, parent, rootsOnly) && MirrorsAll(page, comments)
    ensures forall i :: 0 <= i < |comments| ==> Rooted(comments[i], Digits(p))
    ensures page != [] && post.Some? ==> IsDecimal(post.value) && Digits(p) == NormalizeExpected(post.value)
    ensures parent.Some? ==>
              forall i :: 0 <= i < |comments| ==> comments[i].parent == Some(NormalizeExpected(parent.value))
    ensures parent.None? && rootsOnly ==> forall i :: 0 <= i < |comments| ==> comments[i].parent.None?
  {
    forall i | 0 <= i < |comments|
      ensures Rooted(comments[i], Digits(p))
      ensures Fits(page[i], p, post, parent, rootsOnly)
    {
      MirrorsRooted(page[i], comments[i], p);
    }
    assert page != [] ==> Fits(page[0], p, post, parent, rootsOnly);
  }
}
