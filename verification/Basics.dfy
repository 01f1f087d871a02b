/** Option values, whole-second waits, least values and rolling windows over time stamps. */
module Basics {

  datatype Option<+T> = None | Some(value: T)

  /** The least integer that is at least `x`. */
  function Ceil(x: real): (n: int)
    ensures x <= n as real < x + 1.0
  {
    -((-x).Floor)
  }

  /** Whole seconds a caller is told to wait, never less than one. */
  function SecondsUntil(deadline: real, now: real): (s: int)
    ensures s >= 1
    ensures now + s as real >= deadline
    ensures s == 1 || now + (s - 1) as real < deadline
  {
    var n := Ceil(deadline - now);
    if n < 1 then 1 else n
  }

  // ---- Least value of a finite map ----

  ghost predicate IsLeast<K>(m: map<K, real>, r: real) {
    && (exists k :: k in m && m[k] == r)
    && forall k :: k in m ==> r <= m[k]
  }

  lemma {:induction false} LeastExists<K>(m: map<K, real>)
    requires m.Keys != {}
    ensures exists r :: IsLeast(m, r)
    decreases |m|
  {
    var k :| k in m.Keys;
    var rest := m - {k};
    assert m.Keys == rest.Keys + {k};
    if rest.Keys == {} {
      assert IsLeast(m, m[k]);
    } else {
      LeastExists(rest);
      var r :| IsLeast(rest, r);
      assert IsLeast(m, if m[k] < r then m[k] else r);
    }
  }

  ghost function Least<K>(m: map<K, real>): (r: real)
    requires m.Keys != {}
    ensures IsLeast(m, r)
  {
    LeastExists(m);
    var r :| IsLeast(m, r);
    r
  }

  method Take<T(==)>(s: set<T>) returns (x: T)
    requires s != {}
    ensures x in s
  {
    x :| x in s;
  }

  method MinOf<K(==)>(m: map<K, real>) returns (r: real)
    requires m.Keys != {}
    ensures r == Least(m)
  {
    var k := Take(m.Keys);
    r := m[k];
    var todo := m.Keys - {k};
    while todo != {}
      invariant todo <= m.Keys
      invariant exists j :: j in m && m[j] == r
      invariant forall j :: j in m && j !in todo ==> r <= m[j]
      decreases |todo|
    {
      k := Take(todo);
      if m[k] < r {
        r := m[k];
      }
      todo := todo - {k};
    }
    assert IsLeast(m, r);
  }

  // ---- Rolling windows ----

  /** The stamps strictly later than `bound`, in order. */
  function After(stamps: seq<real>, bound: real): (r: seq<real>)
    ensures |r| <= |stamps|
    ensures forall i :: 0 <= i < |r| ==> r[i] > bound
  {
    if stamps == [] then []
    else
      var last := stamps[|stamps| - 1];
      var r := After(stamps[..|stamps| - 1], bound);
      if last > bound then r + [last] else r
  }

  lemma AfterAppend(stamps: seq<real>, x: real, bound: real)
    ensures After(stamps + [x], bound) == After(stamps, bound) + if x > bound then [x] else []
  {
    assert (stamps + [x])[..|stamps|] == stamps;
  }

  /** Pruning early and then again equals pruning once at the later bound. */
  lemma {:induction false} AfterAfter(stamps: seq<real>, early: real, late: real)
    requires early <= late
    ensures After(After(stamps, early), late) == After(stamps, late)
  {
    if stamps != [] {
      var front, last := stamps[..|stamps| - 1], stamps[|stamps| - 1];
      AfterAfter(front, early, late);
      if last > early {
        AfterAppend(After(front, early), last, late);
      }
    }
  }

  ghost predicate AtMost(stamps: seq<real>, high: real) {
    forall i :: 0 <= i < |stamps| ==> stamps[i] <= high
  }

  ghost predicate Sorted(stamps: seq<real>) {
    forall i, j :: 0 <= i < j < |stamps| ==> stamps[i] <= stamps[j]
  }

  lemma {:induction false} AfterNothing(stamps: seq<real>, bound: real)
    requires AtMost(stamps, bound)
    ensures After(stamps, bound) == []
  {
    if stamps != [] {
      AfterNothing(stamps[..|stamps| - 1], bound);
    }
  }

  ghost predicate SuffixAfter(stamps: seq<real>, bound: real) {
    var n := |stamps| - |After(stamps, bound)|;
    && After(stamps, bound) == stamps[n..]
    && forall i :: 0 <= i < n ==> stamps[i] <= bound
  }

  lemma SuffixGrows(front: seq<real>, last: real, bound: real)
    requires SuffixAfter(front, bound) && last > bound
    ensures SuffixAfter(front + [last], bound)
  {
    var n := |front| - |After(front, bound)|;
    AfterAppend(front, last, bound);
    assert (front + [last])[n..] == front[n..] + [last];
  }

  /** Of sorted stamps, the ones inside the window are a suffix. */
  lemma {:induction false} AfterIsSuffix(stamps: seq<real>, bound: real)
    requires Sorted(stamps)
    ensures SuffixAfter(stamps, bound)
  {
    if stamps != [] {
      var front, last := stamps[..|stamps| - 1], stamps[|stamps| - 1];
      if last > bound {
        AfterIsSuffix(front, bound);
        SuffixGrows(front, last, bound);
        assert front + [last] == stamps;
      } else {
        AfterNothing(stamps, bound);
      }
    }
  }

  /** How many stamps lie in the half-open window (low, high]. */
  function InWindow(stamps: seq<real>, low: real, high: real): nat {
    if stamps == [] then 0
    else
      var last := stamps[|stamps| - 1];
      InWindow(stamps[..|stamps| - 1], low, high) + if low < last <= high then 1 else 0
  }

  lemma {:induction false} WindowCount(stamps: seq<real>, low: real, high: real)
    requires AtMost(stamps, high)
    ensures InWindow(stamps, low, high) == |After(stamps, low)|
  {
    if stamps != [] {
      WindowCount(stamps[..|stamps| - 1], low, high);
    }
  }

  lemma {:induction false} WindowMonotone(stamps: seq<real>, low: real, high: real, low': real, high': real)
    requires low' <= low
    requires AtMost(stamps, high')
    ensures InWindow(stamps, low, high) <= InWindow(stamps, low', high')
  {
    if stamps != [] {
      WindowMonotone(stamps[..|stamps| - 1], low, high, low', high');
    }
  }

  /** Each stamp was admitted with fewer than `limit` stamps in the window that ends at it. */
  ghost predicate Paced(stamps: seq<real>, window: real, limit: int) {
    stamps == [] ||
    var n := |stamps| - 1;
    && Paced(stamps[..n], window, limit)
    && AtMost(stamps[..n], stamps[n])
    && |After(stamps[..n], stamps[n] - window)| < limit
  }

  lemma PacedAppend(stamps: seq<real>, x: real, window: real, limit: int)
    requires Paced(stamps, window, limit)
    requires AtMost(stamps, x)
    requires |After(stamps, x - window)| < limit
    ensures Paced(stamps + [x], window, limit)
  {
    var s := stamps + [x];
    assert s[..|s| - 1] == stamps;
  }

  /** A limit checked only at admission times bounds every window, wherever it ends. */
  lemma {:induction false} PacedWindow(stamps: seq<real>, window: real, limit: nat, t: real)
    requires Paced(stamps, window, limit)
    ensures InWindow(stamps, t - window, t) <= limit
  {
    if stamps != [] {
      var n := |stamps| - 1;
      var front, last := stamps[..n], stamps[n];
      PacedWindow(front, window, limit, t);
      if last <= t {
        WindowMonotone(front, t - window, t, last - window, last);
        WindowCount(front, last - window, last);
      }
    }
  }

  /** An admission at `at` adds exactly one to the count of its own window. */
  lemma PacedCount(stamps: seq<real>, window: real, limit: nat, at: real)
    requires Paced(stamps, window, limit) && AtMost(stamps, at) && window > 0.0
    ensures |After(stamps, at - window)| <= limit
    ensures InWindow(stamps + [at], at - window, at) == |After(stamps, at - window)| + 1
  {
    PacedWindow(stamps, window, limit, at);
    WindowCount(stamps, at - window, at);
    assert (stamps + [at])[..|stamps|] == stamps;
  }
}
