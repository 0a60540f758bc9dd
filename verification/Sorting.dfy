/** Python's sorted, bisect and insort, with what they guarantee. */
module Sorting {

  predicate Ascending(s: seq<int>) {
    forall i, j | 0 <= i < j < |s| :: s[i] <= s[j]
  }

  predicate StrictlyAscending(s: seq<int>) {
    forall i, j | 0 <= i < j < |s| :: s[i] < s[j]
  }

  // ----- bisection -----

  /** k separates the elements smaller than x from the others. */
  predicate SplitsBefore(s: seq<int>, x: int, k: nat) {
    && k <= |s|
    && (forall i | 0 <= i < k :: s[i] < x)
    && (forall i | k <= i < |s| :: x <= s[i])
  }

  /** k separates the elements not greater than x from the others. */
  predicate SplitsAfter(s: seq<int>, x: int, k: nat) {
    && k <= |s|
    && (forall i | 0 <= i < k :: s[i] <= x)
    && (forall i | k <= i < |s| :: x < s[i])
  }

  lemma SplitUnique(s: seq<int>, x: int, k: nat, m: nat)
    ensures SplitsBefore(s, x, k) && SplitsBefore(s, x, m) ==> k == m
  {
    var i := if k < m then k else m;
    if i < |s| {
      var element := s[i];
    }
  }

  /** Halving the positions [lo, hi) of any list, sorted or not. */
  function BisectLeftIn(s: seq<int>, x: int, lo: nat, hi: nat): (k: nat)
    requires lo <= hi <= |s|
    ensures lo <= k <= hi
    ensures Ascending(s) ==> (forall i | lo <= i < k :: s[i] < x) && (forall i | k <= i < hi :: x <= s[i])
    decreases hi - lo
  {
    if lo == hi then lo
    else
      var mid := (lo + hi) / 2;
      if s[mid] < x then BisectLeftIn(s, x, mid + 1, hi) else BisectLeftIn(s, x, lo, mid)
  }

  function BisectRightIn(s: seq<int>, x: int, lo: nat, hi: nat): (k: nat)
    requires lo <= hi <= |s|
    ensures lo <= k <= hi
    ensures Ascending(s) ==> (forall i | lo <= i < k :: s[i] <= x) && (forall i | k <= i < hi :: x < s[i])
    decreases hi - lo
  {
    if lo == hi then lo
    else
      var mid := (lo + hi) / 2;
      if x < s[mid] then BisectRightIn(s, x, lo, mid) else BisectRightIn(s, x, mid + 1, hi)
  }

  /** In an ascending list, the number of elements smaller than x. */
  function BisectLeft(s: seq<int>, x: int): (k: nat)
    ensures k <= |s| && (Ascending(s) ==> SplitsBefore(s, x, k))
  {
    BisectLeftIn(s, x, 0, |s|)
  }

  /** In an ascending list, the number of elements not greater than x. */
  function BisectRight(s: seq<int>, x: int): (k: nat)
    ensures k <= |s| && (Ascending(s) ==> SplitsAfter(s, x, k))
  {
    BisectRightIn(s, x, 0, |s|)
  }

  /** Insertion that keeps a list sorted. */
  function Insort(s: seq<int>, x: int): (r: seq<int>)
    requires Ascending(s)
    ensures Ascending(r)
    ensures multiset(r) == multiset(s) + multiset{x}
  {
    var k := BisectRight(s, x);
    assert s == s[..k] + s[k..];
    s[..k] + [x] + s[k..]
  }

  // ----- sorted(set) -----

  lemma SubsetSize<T>(a: set<T>, b: set<T>)
    requires a <= b
    ensures |a| <= |b|
  {
    assert b == a + (b - a);
  }

  lemma SomeMember<T>(s: set<T>) returns (x: T)
    requires s != {}
    ensures x in s
  {
    x :| x in s;
  }

  lemma {:induction false} LeastExists(s: set<int>)
    requires s != {}
    ensures exists m :: m in s && forall y | y in s :: m <= y
    decreases |s|
  {
    var x := SomeMember(s);
    var t := s - {x};
    if t == {} {
      assert s == {x};
    } else {
      LeastExists(t);
      var m :| m in t && forall y | y in t :: m <= y;
      var best := if x < m then x else m;
      assert best in s;
      forall y | y in s ensures best <= y {
        assert y == x || y in t;
      }
    }
  }

  function Least(s: set<int>): (m: int)
    requires s != {}
    ensures m in s && forall y | y in s :: m <= y
  {
    LeastExists(s);
    var m :| m in s && forall y | y in s :: m <= y;
    m
  }

  /** A set has one ascending listing. */
  lemma {:induction false} SortedUnique(a: seq<int>, b: seq<int>)
    requires StrictlyAscending(a) && StrictlyAscending(b)
    requires forall x :: x in a <==> x in b
    ensures a == b
  {
    if a == [] {
      assert forall i | 0 <= i < |b| :: b[i] !in a;
    } else {
      assert a[0] in b && b[0] in a;
      assert a[0] == b[0];
      assert a == [a[0]] + a[1..] && b == [b[0]] + b[1..];
      forall x ensures x in a[1..] <==> x in b[1..] {
        assert x in a[1..] <==> x in a && x != a[0];
        assert x in b[1..] <==> x in b && x != b[0];
      }
      SortedUnique(a[1..], b[1..]);
    }
  }

  predicate Lists(r: seq<int>, s: set<int>) {
    StrictlyAscending(r) && (forall x | x in r :: x in s) && (forall x | x in s :: x in r) && |r| == |s|
  }

  lemma {:induction false} ListingExists(s: set<int>)
    ensures exists r :: Lists(r, s)
    decreases |s|
  {
    if s == {} {
      assert Lists([], s);
    } else {
      var m := Least(s);
      ListingExists(s - {m});
      var r :| Lists(r, s - {m});
      forall i | 0 <= i < |r| ensures m < r[i] {
        assert r[i] in r;
      }
      assert Lists([m] + r, s);
    }
  }

  /** The elements of a set in ascending order. */
  function SortedSet(s: set<int>): (r: seq<int>)
    ensures StrictlyAscending(r) && Ascending(r)
    ensures forall x :: x in r <==> x in s
    ensures |r| == |s|
  {
    ListingExists(s);
    assert forall a, b | Lists(a, s) && Lists(b, s) :: a == b by {
      forall a, b | Lists(a, s) && Lists(b, s) ensures a == b {
        SortedUnique(a, b);
      }
    }
    var r :| Lists(r, s);
    r
  }

  /** Splicing an absent element between the smaller and the greater elements. */
  lemma SpliceStrict(l: seq<int>, x: int, r: seq<int>)
    requires StrictlyAscending(l + r)
    requires forall y | y in l :: y < x
    requires forall y | y in r :: x < y
    ensures StrictlyAscending(l + [x] + r)
  {
    var a, b := l + r, l + [x] + r;
    forall i, j | 0 <= i < j < |b| ensures b[i] < b[j] {
      if i < |l| {
        assert b[i] == a[i] && b[i] in l;
      } else if i > |l| {
        assert b[i] == a[i - 1];
      }
      if j < |l| {
        assert b[j] == a[j];
      } else if j > |l| {
        assert b[j] == a[j - 1] && b[j] == r[j - |l| - 1] && b[j] in r;
      }
    }
  }

  lemma InsortStrict(a: seq<int>, x: int)
    requires StrictlyAscending(a) && x !in a
    ensures StrictlyAscending(Insort(a, x))
    ensures forall y :: y in Insort(a, x) <==> y in a || y == x
  {
    var k := BisectRight(a, x);
    var l, r := a[..k], a[k..];
    assert l + r == a;
    forall y | y in l ensures y < x {
      assert y in a;
    }
    SpliceStrict(l, x, r);
    forall y ensures y in Insort(a, x) <==> y in a || y == x {
      assert y in multiset(Insort(a, x)) <==> y in multiset(a) || y == x;
    }
  }

  /** insort of a new element into the listing of a set lists the larger set. */
  lemma InsortSortedSet(s: set<int>, x: int)
    requires x !in s
    ensures Insort(SortedSet(s), x) == SortedSet(s + {x})
  {
    InsortStrict(SortedSet(s), x);
    SortedUnique(Insort(SortedSet(s), x), SortedSet(s + {x}));
  }

  /** The members of s between lo and hi inclusive. */
  function Between(s: set<int>, lo: int, hi: int): set<int> {
    set d | d in s && lo <= d <= hi
  }

  /** In an ascending list the elements of a closed interval are consecutive. */
  lemma SliceBetween(a: seq<int>, l: nat, r: nat, lo: int, hi: int)
    requires l <= |a| && r <= |a| && lo <= hi + 1
    requires forall i | 0 <= i < l :: a[i] < lo
    requires forall i | l <= i < |a| :: lo <= a[i]
    requires forall i | 0 <= i < r :: a[i] <= hi
    requires forall i | r <= i < |a| :: hi < a[i]
    ensures l <= r
    ensures forall x :: x in a[l..r] <==> x in a && lo <= x <= hi
  {
    if r < |a| {
      assert hi < a[r];
    }
    var mid := a[l..r];
    forall x | x in a && lo <= x <= hi ensures x in mid {
      var i :| 0 <= i < |a| && a[i] == x;
      assert mid[i - l] == x;
    }
    forall i | 0 <= i < |mid| ensures mid[i] in a && lo <= mid[i] <= hi {
      assert mid[i] == a[l + i];
    }
  }

  /** The elements of a sorted list in a closed interval, counted by two bisects. */
  function CountIn(s: seq<int>, lo: int, hi: int): int
    requires Ascending(s)
  {
    BisectRight(s, hi) - BisectLeft(s, lo)
  }

  /** Two bisects over the listing of a set count its members in a closed interval. */
  lemma CountBetween(s: set<int>, lo: int, hi: int)
    requires lo <= hi + 1
    ensures CountIn(SortedSet(s), lo, hi) == |Between(s, lo, hi)|
  {
    var a := SortedSet(s);
    var l, r := BisectLeft(a, lo), BisectRight(a, hi);
    SliceBetween(a, l, r, lo, hi);
    SortedUnique(a[l..r], SortedSet(Between(s, lo, hi)));
  }

  // ----- stable sort by a comparison -----

  ghost predicate TotalPreorder(le: (nat, nat) -> bool) {
    && (forall a: nat, b: nat :: le(a, b) || le(b, a))
    && (forall a: nat, b: nat, c: nat :: le(a, b) && le(b, c) ==> le(a, c))
  }

  ghost predicate OrderedBy(s: seq<nat>, le: (nat, nat) -> bool) {
    forall i, j | 0 <= i < j < |s| :: le(s[i], s[j])
  }

  function InsertBy(x: nat, s: seq<nat>, le: (nat, nat) -> bool): (r: seq<nat>)
    ensures multiset(r) == multiset(s) + multiset{x}
  {
    if s == [] then [x]
    else if le(x, s[0]) then [x] + s
    else
      assert s == [s[0]] + s[1..];
      [s[0]] + InsertBy(x, s[1..], le)
  }

  /** Python's sorted(s, key=...) for the preorder that the key induces. */
  function SortBy(s: seq<nat>, le: (nat, nat) -> bool): (r: seq<nat>)
    ensures multiset(r) == multiset(s)
  {
    if s == [] then []
    else
      assert s == [s[0]] + s[1..];
      InsertBy(s[0], SortBy(s[1..], le), le)
  }

  lemma {:induction false} InsertByOrdered(x: nat, s: seq<nat>, le: (nat, nat) -> bool)
    requires TotalPreorder(le) && OrderedBy(s, le)
    ensures OrderedBy(InsertBy(x, s, le), le)
  {
    if s != [] && !le(x, s[0]) {
      InsertByOrdered(x, s[1..], le);
      var rest := InsertBy(x, s[1..], le);
      forall i | 0 <= i < |rest| ensures le(s[0], rest[i]) {
        assert rest[i] in multiset(rest);
        assert rest[i] == x || rest[i] in s[1..];
      }
    }
  }

  lemma {:induction false} SortByOrdered(s: seq<nat>, le: (nat, nat) -> bool)
    requires TotalPreorder(le)
    ensures OrderedBy(SortBy(s, le), le)
  {
    if s != [] {
      SortByOrdered(s[1..], le);
      InsertByOrdered(s[0], SortBy(s[1..], le), le);
    }
  }

  /** Equal keys keep the order of the input: for an increasing input they stay increasing. */
  ghost predicate StableBy(s: seq<nat>, le: (nat, nat) -> bool) {
    forall i, j | 0 <= i < j < |s| && le(s[j], s[i]) :: s[i] < s[j]
  }

  lemma {:induction false} InsertByStable(x: nat, s: seq<nat>, le: (nat, nat) -> bool)
    requires TotalPreorder(le) && OrderedBy(s, le) && StableBy(s, le)
    requires forall i | 0 <= i < |s| :: x < s[i]
    ensures StableBy(InsertBy(x, s, le), le)
  {
    if s != [] && !le(x, s[0]) {
      InsertByStable(x, s[1..], le);
      var rest := InsertBy(x, s[1..], le);
      forall i | 0 <= i < |rest| && le(rest[i], s[0]) ensures s[0] < rest[i] {
        assert rest[i] in multiset(rest);
        assert rest[i] == x || rest[i] in s[1..];
      }
    }
  }

  lemma {:induction false} SortByStable(s: seq<nat>, le: (nat, nat) -> bool)
    requires TotalPreorder(le)
    requires forall i, j | 0 <= i < j < |s| :: s[i] < s[j]
    ensures StableBy(SortBy(s, le), le)
  {
    if s != [] {
      var r := SortBy(s[1..], le);
      SortByStable(s[1..], le);
      SortByOrdered(s[1..], le);
      forall i | 0 <= i < |r| ensures s[0] < r[i] {
        assert r[i] in multiset(s[1..]);
      }
      InsertByStable(s[0], r, le);
    }
  }

  lemma SameMembers(s: seq<nat>, t: seq<nat>)
    requires multiset(s) == multiset(t)
    ensures |s| == |t|
    ensures forall x: nat :: x in s <==> x in t
  {
    assert |multiset(s)| == |s| && |multiset(t)| == |t|;
    forall x: nat ensures x in s <==> x in t {
      assert x in multiset(s) <==> x in multiset(t);
    }
  }

  /** A list has no repetition exactly when every multiplicity is at most one. */
  lemma {:induction false} RepeatsAreMultiplicities(s: seq<nat>)
    ensures (forall i, j | 0 <= i < j < |s| :: s[i] != s[j]) <==> forall x: nat :: multiset(s)[x] <= 1
  {
    if s != [] {
      RepeatsAreMultiplicities(s[1..]);
      assert s == [s[0]] + s[1..];
      forall x: nat ensures multiset(s)[x] == multiset(s[1..])[x] + (if x == s[0] then 1 else 0) {
      }
      if forall i, j | 0 <= i < j < |s| :: s[i] != s[j] {
        assert s[0] !in s[1..];
        assert forall i, j | 0 <= i < j < |s[1..]| :: s[1..][i] == s[i + 1] && s[1..][j] == s[j + 1];
      } else {
        var i, j :| 0 <= i < j < |s| && s[i] == s[j];
        if i == 0 {
          assert s[1..][j - 1] == s[0];
          assert s[0] in multiset(s[1..]);
          assert multiset(s)[s[0]] > 1;
        } else {
          assert s[1..][i - 1] == s[1..][j - 1];
        }
      }
    }
  }

  /** A permutation of a list without repetitions has none. */
  lemma NoRepeatsPermuted(s: seq<nat>, t: seq<nat>)
    requires multiset(s) == multiset(t)
    requires forall i, j | 0 <= i < j < |s| :: s[i] != s[j]
    ensures forall i, j | 0 <= i < j < |t| :: t[i] != t[j]
  {
    RepeatsAreMultiplicities(s);
    RepeatsAreMultiplicities(t);
  }
}
