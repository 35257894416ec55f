// Finite sets of ids read in ascending order, the way every keyset walk of the
// repository reads them (`WHERE id > :after ORDER BY id LIMIT :limit`).
module Ordering {

  lemma {:induction false} LeastOf(s: set<nat>) returns (m: nat)
    requires s != {}
    ensures m in s && forall x :: x in s ==> m <= x
    decreases |s|
  {
    var first :| first in s;
    var rest := s - {first};
    if rest == {} {
      m := first;
      assert s == {first};
    } else {
      var r := LeastOf(rest);
      m := if r < first then r else first;
      assert s == rest + {first};
    }
  }

  lemma LeastExists(s: set<nat>)
    requires s != {}
    ensures exists m :: m in s && forall x :: x in s ==> m <= x
  {
    var m := LeastOf(s);
  }

  function Least(s: set<nat>): (m: nat)
    requires s != {}
    ensures m in s && forall x :: x in s ==> m <= x
  {
    LeastExists(s);
    var m :| m in s && forall x :: x in s ==> m <= x;
    m
  }

  ghost predicate Increasing(q: seq<nat>) {
    forall i, j :: 0 <= i < j < |q| ==> q[i] < q[j]
  }

  lemma Leading(m: nat, rest: seq<nat>, s: set<nat>)
    requires m in s && Increasing(rest) && forall x :: x in rest <==> x in s - {m}
    requires forall x :: x in s ==> m <= x
    ensures Increasing([m] + rest) && forall x :: x in [m] + rest <==> x in s
  {
    forall i, j | 0 <= i < j < |[m] + rest| ensures ([m] + rest)[i] < ([m] + rest)[j] {
      assert ([m] + rest)[j] == rest[j - 1] && rest[j - 1] in rest;
    }
  }

  function Sorted(s: set<nat>): (q: seq<nat>)
    ensures |q| == |s|
    ensures forall x :: x in q <==> x in s
    ensures Increasing(q)
    decreases |s|
  {
    if s == {} then []
    else
      var m := Least(s);
      var rest := Sorted(s - {m});
      Leading(m, rest, s);
      [m] + rest
  }

  function Above(s: set<nat>, after: nat): (r: set<nat>)
    ensures forall x :: x in r <==> x in s && x > after
  {
    set x | x in s && x > after
  }

  // One page of a keyset walk.
  function Page(s: set<nat>, after: nat, limit: nat): (q: seq<nat>) {
    var rest := Sorted(Above(s, after));
    if |rest| <= limit then rest else rest[..limit]
  }

  lemma {:induction false} SortedUnique(s: set<nat>, q: seq<nat>)
    requires Increasing(q)
    requires forall x :: x in q <==> x in s
    ensures q == Sorted(s)
    decreases |q|
  {
    if q == [] {
      assert s == {};
    } else {
      var first, rest := q[0], q[1..];
      assert q == [first] + rest;
      assert first in q;
      assert first in s && s != {};
      var m := Least(s);
      assert m in q && m <= first;
      assert m == first;
      assert first !in rest;
      forall x ensures x in rest <==> x in s - {m} {
        assert x in q <==> x == first || x in rest;
      }
      SortedUnique(s - {m}, rest);
    }
  }

  lemma SplitAt(q: seq<nat>, n: nat, x: nat)
    requires Increasing(q) && 0 < n <= |q|
    ensures x in q[n..] <==> x in q && x > q[n - 1]
  {
    if x in q[n..] {
      var j :| 0 <= j < |q[n..]| && q[n..][j] == x;
      assert x == q[n + j];
    }
    if x in q && x > q[n - 1] {
      var j :| 0 <= j < |q| && q[j] == x;
      assert j >= n;
      assert q[n..][j - n] == x;
    }
  }

  // Skipping everything up to the n-th smallest id leaves the rest of the walk.
  lemma {:induction false} SortedAbove(s: set<nat>, n: nat)
    requires 0 < n <= |Sorted(s)|
    ensures Sorted(Above(s, Sorted(s)[n - 1])) == Sorted(s)[n..]
  {
    var q := Sorted(s);
    forall x ensures x in q[n..] <==> x in Above(s, q[n - 1]) { SplitAt(q, n, x); }
    SortedUnique(Above(s, q[n - 1]), q[n..]);
  }

  // A page, without how it is read: ascending ids of the set above the cursor, at most
  // `limit`, nothing left out unless the page is full, and then only ids above its last.
  ghost predicate IsPage(s: set<nat>, after: nat, limit: nat, q: seq<nat>) {
    && Increasing(q) && |q| <= limit
    && (forall x :: x in q ==> x in s && x > after)
    && (forall x :: x in s && x > after && x !in q ==> |q| == limit && (q != [] ==> q[|q| - 1] < x))
  }

  lemma IncreasingJoin(q: seq<nat>, rest: seq<nat>)
    requires Increasing(q) && Increasing(rest)
    requires q != [] ==> forall x :: x in rest ==> q[|q| - 1] < x
    ensures Increasing(q + rest)
  {
    forall i, j | 0 <= i < j < |q + rest| ensures (q + rest)[i] < (q + rest)[j] {
      if i < |q| <= j { assert rest[j - |q|] in rest; }
    }
  }

  lemma PageIsOne(s: set<nat>, after: nat, limit: nat)
    ensures IsPage(s, after, limit, Page(s, after, limit))
  {
    var all, q := Sorted(Above(s, after)), Page(s, after, limit);
    forall x | x in q ensures x in s && x > after { assert x in all; }
    forall x | x in s && x > after && x !in q ensures |q| == limit && (q != [] ==> q[|q| - 1] < x) {
      assert x in all;
      var j :| 0 <= j < |all| && all[j] == x;
      assert q == all[..|q|];
    }
  }

  function RestOf(s: set<nat>, after: nat, q: seq<nat>): (r: set<nat>)
    ensures forall x :: x in r <==> x in s && x > after && x !in q
  {
    set x | x in s && x > after && x !in q
  }

  lemma InJoin(q: seq<nat>, rest: seq<nat>, x: nat)
    ensures x in q + rest <==> x in q || x in rest
  {
  }

  // The ids of the set above the cursor, as a page and the rest in order.
  lemma PageAndRest(s: set<nat>, after: nat, limit: nat, q: seq<nat>)
    requires IsPage(s, after, limit, q)
    ensures Sorted(Above(s, after)) == q + Sorted(RestOf(s, after, q))
    ensures RestOf(s, after, q) != {} ==> |q| == limit
  {
    hide Sorted, Above, RestOf, Increasing;
    ghost var rest := Sorted(RestOf(s, after, q));
    IncreasingJoin(q, rest);
    forall x ensures x in q + rest <==> x in Above(s, after) { InJoin(q, rest, x); }
    SortedUnique(Above(s, after), q + rest);
  }

  lemma PageMeaning(s: set<nat>, after: nat, limit: nat, q: seq<nat>)
    ensures q == Page(s, after, limit) <==> IsPage(s, after, limit, q)
  {
    hide Sorted, IsPage;
    PageIsOne(s, after, limit);
    if IsPage(s, after, limit, q) {
      PageAndRest(s, after, limit, q);
      PageSize(s, after, limit, q);
      var rest := RestOf(s, after, q);
      assert (q + Sorted(rest))[..|q|] == q;
      assert |Sorted(rest)| == |rest|;
      if rest == {} { assert q + Sorted(rest) == q; }
    }
  }

  lemma PageSize(s: set<nat>, after: nat, limit: nat, q: seq<nat>)
    requires IsPage(s, after, limit, q)
    ensures |q| <= limit
  {
  }

  lemma SingletonHasOne<T>(s: set<T>, a: T, b: T)
    requires |s| == 1 && a in s && b in s
    ensures a == b
  {
    assert |s - {a}| == 0;
    assert b in s - {a} <==> b != a;
  }

  function TheOnly(s: set<nat>): (o: nat)
    requires |s| == 1
    ensures s == {o}
  {
    assert s != {};
    assert forall a, b :: a in s && b in s ==> a == b by {
      forall a, b | a in s && b in s ensures a == b { SingletonHasOne(s, a, b); }
    }
    var o :| o in s;
    o
  }
}
