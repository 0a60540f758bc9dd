/** Finite sums over index ranges and over index lists. */
module Sums {

  /** f(0) + ... + f(n-1). */
  function Sum(n: nat, f: nat -> int): int {
    if n == 0 then 0 else Sum(n - 1, f) + f(n - 1)
  }

  /** The sum of f over the listed indices, counted as often as they are listed. */
  function SumOver(s: seq<nat>, f: nat -> int): int {
    if s == [] then 0 else f(s[0]) + SumOver(s[1..], f)
  }

  lemma {:induction false} SumExt(n: nat, f: nat -> int, g: nat -> int)
    requires forall i: nat | i < n :: f(i) == g(i)
    ensures Sum(n, f) == Sum(n, g)
  {
    if n > 0 {
      SumExt(n - 1, f, g);
    }
  }

  lemma {:induction false} SumMonotone(n: nat, f: nat -> int, g: nat -> int)
    requires forall i: nat | i < n :: f(i) <= g(i)
    ensures Sum(n, f) <= Sum(n, g)
  {
    if n > 0 {
      SumMonotone(n - 1, f, g);
    }
  }

  lemma {:induction false} SumZero(n: nat, f: nat -> int)
    requires forall i: nat | i < n :: f(i) == 0
    ensures Sum(n, f) == 0
  {
    if n > 0 {
      SumZero(n - 1, f);
    }
  }

  /** A sum of non-negative numbers is at least each of them, and zero only if all are. */
  lemma {:induction false} SumAtLeast(n: nat, f: nat -> int, k: nat)
    requires forall i: nat | i < n :: f(i) >= 0
    requires k < n
    ensures Sum(n, f) >= f(k)
  {
    if k < n - 1 {
      SumAtLeast(n - 1, f, k);
    } else {
      SumMonotone(n - 1, _ => 0, f);
      SumZero(n - 1, _ => 0);
    }
  }

  lemma {:induction false} SumOverExt(s: seq<nat>, f: nat -> int, g: nat -> int)
    requires forall i: nat | i in s :: f(i) == g(i)
    ensures SumOver(s, f) == SumOver(s, g)
  {
    if s != [] {
      SumOverExt(s[1..], f, g);
    }
  }

  lemma {:induction false} SumOverAppend(s: seq<nat>, t: seq<nat>, f: nat -> int)
    ensures SumOver(s + t, f) == SumOver(s, f) + SumOver(t, f)
  {
    if s == [] {
      assert s + t == t;
    } else {
      assert (s + t)[1..] == s[1..] + t;
      SumOverAppend(s[1..], t, f);
    }
  }

  lemma SumOverLast(s: seq<nat>, f: nat -> int)
    requires s != []
    ensures SumOver(s, f) == SumOver(s[..|s| - 1], f) + f(s[|s| - 1])
  {
    var t, last := s[..|s| - 1], s[|s| - 1];
    assert s == t + [last];
    SumOverAppend(t, [last], f);
  }

  /** Taking the same element out of two permutations leaves permutations. */
  lemma WithoutOne<T>(s: seq<T>, t: seq<T>, j: nat)
    requires multiset(s) == multiset(t) && s != [] && j < |t| && t[j] == s[0]
    ensures multiset(s[1..]) == multiset(t[..j] + t[j + 1..])
  {
    assert t == t[..j] + [t[j]] + t[j + 1..];
    assert s == [s[0]] + s[1..];
    calc {
      multiset(s[1..]);
      multiset(s) - multiset{s[0]};
      multiset(t) - multiset{t[j]};
      multiset(t[..j]) + multiset(t[j + 1..]);
      multiset(t[..j] + t[j + 1..]);
    }
  }

  /** The order in which a list is summed does not matter. */
  lemma {:induction false} SumOverPermutation(s: seq<nat>, t: seq<nat>, f: nat -> int)
    requires multiset(s) == multiset(t)
    ensures SumOver(s, f) == SumOver(t, f)
  {
    if s == [] {
      assert |multiset(t)| == 0;
    } else {
      assert s[0] in multiset(t);
      var j :| 0 <= j < |t| && t[j] == s[0];
      var a, b := t[..j], t[j + 1..];
      WithoutOne(s, t, j);
      assert t == a + [t[j]] + b;
      SumOverPermutation(s[1..], a + b, f);
      SumOverAppend(a, b, f);
      SumOverAppend(a + [t[j]], b, f);
      SumOverAppend(a, [t[j]], f);
    }
  }

  ghost predicate Increasing(s: seq<nat>) {
    forall i, j | 0 <= i < j < |s| :: s[i] < s[j]
  }

  ghost predicate Below(s: seq<nat>, n: nat) {
    forall i | 0 <= i < |s| :: s[i] < n
  }

  lemma NothingAtTop(n: nat, s: seq<nat>)
    requires n > 0 && Increasing(s) && Below(s, n) && (s != [] ==> s[|s| - 1] != n - 1)
    ensures Below(s, n - 1) && n - 1 !in s
  {
    forall k | 0 <= k < |s| ensures s[k] < n - 1 {
      assert k < |s| - 1 ==> s[k] < s[|s| - 1];
    }
  }

  ghost predicate VanishesOff(n: nat, s: seq<nat>, f: nat -> int) {
    forall i: nat | i < n && i !in s :: f(i) == 0
  }

  lemma WithoutTop(n: nat, s: seq<nat>, f: nat -> int)
    requires n > 0 && Increasing(s) && VanishesOff(n, s, f) && s != [] && s[|s| - 1] == n - 1
    ensures Increasing(s[..|s| - 1]) && Below(s[..|s| - 1], n - 1) && VanishesOff(n - 1, s[..|s| - 1], f)
  {
    var t := s[..|s| - 1];
    forall i: nat | i < n - 1 && i !in t ensures f(i) == 0 {
      assert s == t + [n - 1];
      assert i !in s;
    }
  }

  /** Summing a function that vanishes off an increasing list is summing it over the list. */
  lemma {:induction false} SumOnSupport(n: nat, s: seq<nat>, f: nat -> int)
    requires Increasing(s) && Below(s, n) && VanishesOff(n, s, f)
    ensures Sum(n, f) == SumOver(s, f)
  {
    if n == 0 {
      assert s == [];
    } else if s != [] && s[|s| - 1] == n - 1 {
      WithoutTop(n, s, f);
      SumOnSupport(n - 1, s[..|s| - 1], f);
      SumOverLast(s, f);
    } else {
      NothingAtTop(n, s);
      SumOnSupport(n - 1, s, f);
    }
  }

  /** Summing over a list is summing over its positions. */
  lemma {:induction false} SumOverPositions(s: seq<nat>, f: nat -> int)
    ensures SumOver(s, f) == Sum(|s|, (k: nat) => if k < |s| then f(s[k]) else 0)
  {
    if s != [] {
      var t := s[..|s| - 1];
      SumOverLast(s, f);
      SumOverPositions(t, f);
      SumExt(|t|, (k: nat) => if k < |t| then f(t[k]) else 0, (k: nat) => if k < |s| then f(s[k]) else 0);
    }
  }

  lemma {:induction false} SumAdd(n: nat, f: nat -> int, g: nat -> int)
    ensures Sum(n, (i: nat) => f(i) + g(i)) == Sum(n, f) + Sum(n, g)
  {
    if n > 0 {
      SumAdd(n - 1, f, g);
    }
  }

  /** The indicator function of a predicate. */
  function Bits(p: nat -> bool): nat -> int {
    (i: nat) => if p(i) then 1 else 0
  }

  lemma {:induction false} CountIsZero(n: nat, p: nat -> bool)
    ensures Sum(n, Bits(p)) >= 0
    ensures Sum(n, Bits(p)) == 0 <==> forall i: nat | i < n :: !p(i)
  {
    if n > 0 {
      CountIsZero(n - 1, p);
    }
  }

  /** A count is at most one exactly when no two indices satisfy the predicate. */
  lemma {:induction false} CountAtMostOne(n: nat, p: nat -> bool)
    ensures Sum(n, Bits(p)) <= 1 <==> forall i: nat, j: nat | i < j < n :: !(p(i) && p(j))
  {
    if n > 0 {
      CountIsZero(n - 1, p);
      CountAtMostOne(n - 1, p);
    }
  }

  /** A count is the size of a set. */
  lemma {:induction false} CountIsSize(n: nat, p: nat -> bool)
    ensures Sum(n, Bits(p)) == |set i: nat | i < n && p(i)|
  {
    if n > 0 {
      CountIsSize(n - 1, p);
      var s, t := set i: nat | i < n && p(i), set i: nat | i < n - 1 && p(i);
      assert s == t + (if p(n - 1) then {n - 1} else {});
    }
  }

  /** The indices below n that satisfy p, in increasing order. */
  function Filter(n: nat, p: nat -> bool): (r: seq<nat>)
    ensures Increasing(r) && Below(r, n)
    ensures forall i: nat :: i in r <==> i < n && p(i)
  {
    if n == 0 then []
    else if p(n - 1) then Filter(n - 1, p) + [n - 1]
    else Filter(n - 1, p)
  }
}
