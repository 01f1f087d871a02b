/** Page metadata in backend responses: optional, but consistent whatever part of it is present. */
module Pagination {
  import opened Basics
  import opened ResponseIds

  /** The values found under the alias keys of each field, in order. */
  datatype Raw = Raw(page: seq<Value>, size: seq<Value>, totalElements: seq<Value>, totalPages: seq<Value>,
                     hasNext: seq<Value>, isLast: seq<Value>)

  datatype Meta = Meta(page: Option<int>, size: Option<int>, totalElements: Option<int>, totalPages: Option<int>,
                       hasNext: Option<bool>, isLast: Option<bool>)

  datatype Field<T> = Missing | Given(value: T) | Bad
  {
    function Get(): Option<T> {
      if Given? then Some(value) else None
    }
  }

  predicate AllSame(values: seq<Value>) {
    forall i :: 0 <= i < |values| ==> values[i] == values[0]
  }

  function IntField(values: seq<Value>, minimum: int): (r: Field<int>)
    ensures r.Missing? <==> values == []
    ensures r.Given? <==> exists n :: n >= minimum && Agreed(values, Number(n))
    ensures r.Given? ==> r.value >= minimum && Agreed(values, Number(r.value))
  {
    if values == [] then Missing
    else if (exists i :: 0 <= i < |values| && !(values[i].Number? && values[i].n >= minimum)) || !AllSame(values) then
      assert forall n :: Agreed(values, Number(n)) ==> values[0] == Number(n);
      Bad
    else
      assert Agreed(values, Number(values[0].n));
      Given(values[0].n)
  }

  function BoolField(values: seq<Value>): (r: Field<bool>)
    ensures r.Missing? <==> values == []
    ensures r.Given? <==> exists b :: Agreed(values, Truth(b))
    ensures r.Given? ==> Agreed(values, Truth(r.value))
  {
    if values == [] then Missing
    else if (exists i :: 0 <= i < |values| && !values[i].Truth?) || !AllSame(values) then
      assert forall b :: Agreed(values, Truth(b)) ==> values[0] == Truth(b);
      Bad
    else
      assert Agreed(values, Truth(values[0].b));
      Given(values[0].b)
  }

  function PageCount(elements: int, size: int): int
    requires size > 0
  {
    (elements + size - 1) / size
  }

  /** The cross checks, between whichever fields are present. */
  predicate Consistent(m: Meta, requestedPage: Option<int>, requestedSize: Option<int>) {
    && (m.page.Some? && requestedPage.Some? ==> m.page == requestedPage)
    && (m.size.Some? && requestedSize.Some? ==> m.size == requestedSize)
    && (m.totalElements.Some? && m.totalPages.Some? && m.size.Some? && m.size.value > 0 ==>
          m.totalPages.value == PageCount(m.totalElements.value, m.size.value))
    && (m.hasNext.Some? && m.isLast.Some? ==> m.hasNext.value != m.isLast.value)
    && (m.page.Some? && m.totalPages.Some? ==>
          var next := m.page.value + 1 < m.totalPages.value;
          && (m.hasNext.Some? ==> m.hasNext.value == next)
          && (m.isLast.Some? ==> m.isLast.value != next))
  }

  /** Each of the two flags stands in for the other; nothing else is made up. */
  function Complete(m: Meta): Meta {
    if m.hasNext.None? && m.isLast.Some? then m.(hasNext := Some(!m.isLast.value))
    else if m.isLast.None? && m.hasNext.Some? then m.(isLast := Some(!m.hasNext.value))
    else m
  }

  function ReadPagination(raw: Raw, requestedPage: Option<int>, requestedSize: Option<int>): Option<Meta> {
    var page, size := IntField(raw.page, 0), IntField(raw.size, 1);
    var elements, pages := IntField(raw.totalElements, 0), IntField(raw.totalPages, 0);
    var hasNext, isLast := BoolField(raw.hasNext), BoolField(raw.isLast);
    if page.Bad? || size.Bad? || elements.Bad? || pages.Bad? || hasNext.Bad? || isLast.Bad? then None
    else
      var m := Meta(page.Get(), size.Get(), elements.Get(), pages.Get(), hasNext.Get(), isLast.Get());
      if Consistent(m, requestedPage, requestedSize) then Some(Complete(m)) else None
  }

  /** Nothing the fields say contradicts the request or one another. */
  predicate Coherent(m: Meta, requestedPage: Option<int>, requestedSize: Option<int>) {
    && (m.page.Some? && requestedPage.Some? ==> m.page.value == requestedPage.value)
    && (m.size.Some? && requestedSize.Some? ==> m.size.value == requestedSize.value)
    && (m.totalElements.Some? && m.totalPages.Some? && m.size.Some? ==>
          (m.totalPages.value - 1) * m.size.value < m.totalElements.value <= m.totalPages.value * m.size.value)
    && (m.hasNext.Some? && m.isLast.Some? ==> m.hasNext.value == !m.isLast.value)
    && (m.page.Some? && m.totalPages.Some? && m.hasNext.Some? ==>
          (m.hasNext.value <==> m.page.value < m.totalPages.value - 1))
    && (m.page.Some? && m.totalPages.Some? && m.isLast.Some? ==>
          (m.isLast.value <==> m.page.value >= m.totalPages.value - 1))
  }

  function Either(a: Option<bool>, b: Option<bool>): Option<bool> {
    if a.Some? then a else if b.Some? then Some(!b.value) else None
  }

  lemma CeilingIs(elements: int, size: int, pages: int)
    requires size > 0
    ensures pages == PageCount(elements, size) <==> (pages - 1) * size < elements <= pages * size
  {
    var q := PageCount(elements, size);
    assert q * size <= elements + size - 1 < (q + 1) * size;
    Between(q, size, elements, pages - 1);
    Between(q, size, elements, pages);
  }

  /** A page's fields are accepted exactly if each can be read and they are coherent; then they are
      reported as they are, and each of the two flags stands in for the other. */
  lemma ReadExactly(raw: Raw, requestedPage: Option<int>, requestedSize: Option<int>)
    ensures var m := Meta(IntField(raw.page, 0).Get(), IntField(raw.size, 1).Get(), IntField(raw.totalElements, 0).Get(),
                          IntField(raw.totalPages, 0).Get(), BoolField(raw.hasNext).Get(), BoolField(raw.isLast).Get());
            var r := ReadPagination(raw, requestedPage, requestedSize);
            && (r.Some? <==>
                  && !IntField(raw.page, 0).Bad? && !IntField(raw.size, 1).Bad? && !IntField(raw.totalElements, 0).Bad?
                  && !IntField(raw.totalPages, 0).Bad? && !BoolField(raw.hasNext).Bad? && !BoolField(raw.isLast).Bad?
                  && Coherent(m, requestedPage, requestedSize))
            && (r.Some? ==> r.value == Meta(m.page, m.size, m.totalElements, m.totalPages,
                                            Either(m.hasNext, m.isLast), Either(m.isLast, m.hasNext)))
  {
    var elements, size, pages := IntField(raw.totalElements, 0), IntField(raw.size, 1), IntField(raw.totalPages, 0);
    if elements.Given? && size.Given? && pages.Given? {
      CeilingIs(elements.value, size.value, pages.value);
    }
  }

  // ---- Totals and the next page ----

  lemma Between(q: int, size: int, n: int, k: int)
    requires size > 0 && q * size <= n + size - 1 < (q + 1) * size
    ensures k < q <==> k * size < n
  {
    if k < q {
      assert (k + 1) * size <= q * size;
      assert (k + 1) * size == k * size + size;
    } else {
      assert q * size <= k * size;
      assert (q + 1) * size == q * size + size;
    }
  }

  lemma NextExactly(n: int, size: int, page: int)
    requires size > 0
    ensures page + 1 < PageCount(n, size) <==> (page + 1) * size < n
  {
    var q := PageCount(n, size);
    assert q * size <= n + size - 1 < (q + 1) * size;
    Between(q, size, n, page + 1);
  }

  /** With page, size and totals present, there is a next page exactly if elements remain after this one. */
  lemma HasNextExactly(raw: Raw, requestedPage: Option<int>, requestedSize: Option<int>)
    requires ReadPagination(raw, requestedPage, requestedSize).Some?
    ensures var m := ReadPagination(raw, requestedPage, requestedSize).value;
            m.page.Some? && m.size.Some? && m.totalElements.Some? && m.totalPages.Some? && m.hasNext.Some? ==>
              && (m.hasNext.value <==> (m.page.value + 1) * m.size.value < m.totalElements.value)
              && m.isLast == Some(!m.hasNext.value)
  {
    var m := ReadPagination(raw, requestedPage, requestedSize).value;
    if m.page.Some? && m.size.Some? && m.totalElements.Some? && m.totalPages.Some? {
      NextExactly(m.totalElements.value, m.size.value, m.page.value);
    }
  }

  /** A response about page `page` of a list of `n` elements: each field absent, or true under all
      the aliases used. */
  ghost predicate Honest(raw: Raw, n: nat, size: nat, page: nat)
    requires size > 0
  {
    && (raw.page == [] || Agreed(raw.page, Number(page)))
    && (raw.size == [] || Agreed(raw.size, Number(size)))
    && (raw.totalElements == [] || Agreed(raw.totalElements, Number(n)))
    && (raw.totalPages == [] || Agreed(raw.totalPages, Number(PageCount(n, size))))
    && (raw.hasNext == [] || Agreed(raw.hasNext, Truth((page + 1) * size < n)))
    && (raw.isLast == [] || Agreed(raw.isLast, Truth((page + 1) * size >= n)))
  }

  lemma IntIsGiven(values: seq<Value>, minimum: int, n: int)
    requires n >= minimum && Agreed(values, Number(n))
    ensures IntField(values, minimum) == Given(n)
  {
    assert values[0] == Number(n);
  }

  lemma BoolIsGiven(values: seq<Value>, b: bool)
    requires Agreed(values, Truth(b))
    ensures BoolField(values) == Given(b)
  {
    assert values[0] == Truth(b);
  }

  /** No honest page is refused, not even one past the end, whichever fields the backend leaves out. */
  lemma HonestIsAccepted(raw: Raw, n: nat, size: nat, page: nat)
    requires size > 0 && Honest(raw, n, size, page)
    ensures ReadPagination(raw, Some(page), Some(size)).Some?
    ensures var m := ReadPagination(raw, Some(page), Some(size)).value;
            && (m.hasNext.Some? <==> raw.hasNext != [] || raw.isLast != [])
            && (m.hasNext.Some? ==> m.hasNext.value == ((page + 1) * size < n))
  {
    HonestFields(raw, n, size, page);
    HonestFits(Meta(Reported(raw.page, page), Reported(raw.size, size), Reported(raw.totalElements, n),
                    Reported(raw.totalPages, PageCount(n, size)), Reported(raw.hasNext, (page + 1) * size < n),
                    Reported(raw.isLast, (page + 1) * size >= n)), n, size, page);
  }

  /** What an honest field reads as. */
  function Reported<T>(values: seq<Value>, truth: T): Option<T> {
    if values == [] then None else Some(truth)
  }

  /** Fields that are absent or true pass the cross checks. */
  lemma HonestFits(m: Meta, n: nat, size: nat, page: nat)
    requires size > 0 && m.page in {None, Some(page)} && m.size in {None, Some(size)}
    requires m.totalElements in {None, Some(n)} && m.totalPages in {None, Some(PageCount(n, size))}
    requires m.hasNext in {None, Some((page + 1) * size < n)} && m.isLast in {None, Some((page + 1) * size >= n)}
    ensures Consistent(m, Some(page), Some(size))
  {
    NextExactly(n, size, page);
  }

  lemma HonestFields(raw: Raw, n: nat, size: nat, page: nat)
    requires size > 0 && Honest(raw, n, size, page)
    ensures !IntField(raw.page, 0).Bad? && IntField(raw.page, 0).Get() == Reported(raw.page, page)
    ensures !IntField(raw.size, 1).Bad? && IntField(raw.size, 1).Get() == Reported(raw.size, size)
    ensures !IntField(raw.totalElements, 0).Bad? && IntField(raw.totalElements, 0).Get() == Reported(raw.totalElements, n)
    ensures !IntField(raw.totalPages, 0).Bad?
            && IntField(raw.totalPages, 0).Get() == Reported(raw.totalPages, PageCount(n, size))
    ensures !BoolField(raw.hasNext).Bad? && BoolField(raw.hasNext).Get() == Reported(raw.hasNext, (page + 1) * size < n)
    ensures !BoolField(raw.isLast).Bad? && BoolField(raw.isLast).Get() == Reported(raw.isLast, (page + 1) * size >= n)
  {
    assert PageCount(n, size) >= 0;
    if raw.page != [] { IntIsGiven(raw.page, 0, page); }
    if raw.size != [] { IntIsGiven(raw.size, 1, size); }
    if raw.totalElements != [] { IntIsGiven(raw.totalElements, 0, n); }
    if raw.totalPages != [] { IntIsGiven(raw.totalPages, 0, PageCount(n, size)); }
    if raw.hasNext != [] { BoolIsGiven(raw.hasNext, (page + 1) * size < n); }
    if raw.isLast != [] { BoolIsGiven(raw.isLast, (page + 1) * size >= n); }
  }

  // ---- Walking the pages ----

  /** How many pages are read by following `hasNext` from `page`, if the walk ends within `limit`. */
  function Walk(answers: nat -> Meta, page: nat, limit: nat): Option<nat>
    decreases limit
  {
    if limit == 0 then None
    else if answers(page).hasNext == Some(true) then Walk(answers, page + 1, limit - 1)
    else Some(page + 1)
  }

  /** `m` is an accepted answer for page `page`, with totals for `n` elements and a flag. */
  ghost predicate Answers(raw: Raw, m: Meta, n: nat, size: nat, page: nat) {
    && ReadPagination(raw, Some(page), Some(size)) == Some(m)
    && m.page.Some? && m.size.Some? && m.totalElements == Some(n) && m.totalPages.Some? && m.hasNext.Some?
  }

  function PagesToRead(n: nat, size: nat): nat
    requires size > 0
  {
    if n == 0 then 1 else PageCount(n, size)
  }

  lemma AnswerNext(raw: Raw, m: Meta, n: nat, size: nat, page: nat)
    requires size > 0 && Answers(raw, m, n, size, page)
    ensures m.hasNext == Some(page + 1 < PagesToRead(n, size))
  {
    HasNextExactly(raw, Some(page), Some(size));
    NextExactly(n, size, page);
    if n == 0 {
      assert (page + 1) * size >= 0;
    }
  }

  lemma {:induction false} WalkCounts(answers: nat -> Meta, pages: nat, page: nat, limit: nat)
    requires page < pages && forall i: nat :: answers(i).hasNext == Some(i + 1 < pages)
    ensures Walk(answers, page, limit) == if limit >= pages - page then Some(pages) else None
    decreases limit
  {
    if limit > 0 {
      assert answers(page).hasNext == Some(page + 1 < pages);
      if page + 1 < pages {
        WalkCounts(answers, pages, page + 1, limit - 1);
      }
    }
  }

  /**
   Following `hasNext` from page 0 ends, after exactly max(1, total_pages) pages, and the pages
   read hold every element once.
   */
  lemma PageWalk(raws: nat -> Raw, answers: nat -> Meta, n: nat, size: nat, limit: nat)
    requires size > 0 && forall i: nat :: Answers(raws(i), answers(i), n, size, i)
    ensures var pages := PagesToRead(n, size);
            && answers(0).totalPages == Some(if n == 0 then 0 else pages)
            && Walk(answers, 0, limit) == (if limit >= pages then Some(pages) else None)
    ensures forall k :: 0 <= k < n ==>
              && 0 <= k / size < PagesToRead(n, size)
              && forall i :: i * size <= k < (i + 1) * size <==> i == k / size
  {
    assert Answers(raws(0), answers(0), n, size, 0);
    NextExactly(n, size, 0);
    assert PageCount(0, size) == 0 by {
      NextExactly(0, size, -1);
    }
    assert PagesToRead(n, size) >= 1;
    forall i: nat ensures answers(i).hasNext == Some(i + 1 < PagesToRead(n, size)) {
      assert Answers(raws(i), answers(i), n, size, i);
      AnswerNext(raws(i), answers(i), n, size, i);
    }
    WalkCounts(answers, PagesToRead(n, size), 0, limit);
    forall k | 0 <= k < n
      ensures 0 <= k / size < PagesToRead(n, size)
      ensures forall i :: i * size <= k < (i + 1) * size <==> i == k / size
    {
      OnePage(n, size, k);
    }
  }

  lemma Monotone(a: int, b: int, size: nat)
    requires a <= b
    ensures a * size <= b * size
  {
  }

  lemma InPage(i: int, q: int, size: nat, k: int)
    requires size > 0 && q * size <= k < (q + 1) * size
    ensures i * size <= k < (i + 1) * size <==> i == q
  {
    if i < q {
      Monotone(i + 1, q, size);
    } else if i > q {
      Monotone(q + 1, i, size);
    }
  }

  lemma QuotientSpan(k: nat, size: nat)
    requires size > 0
    ensures 0 <= k / size && k / size * size <= k < (k / size + 1) * size
  {
    assert k == k / size * size + k % size;
    assert (k / size + 1) * size == k / size * size + size;
  }

  lemma OnePage(n: nat, size: nat, k: nat)
    requires size > 0 && k < n
    ensures 0 <= k / size < PagesToRead(n, size)
    ensures forall i :: i * size <= k < (i + 1) * size <==> i == k / size
  {
    var q := k / size;
    QuotientSpan(k, size);
    assert q < PageCount(n, size) by {
      NextExactly(n, size, q - 1);
    }
    forall i ensures i * size <= k < (i + 1) * size <==> i == q {
      InPage(i, q, size, k);
    }
  }
}
