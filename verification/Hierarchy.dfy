/**
 Distance in the unit hierarchy, and the reserve that stands in for each primary duty holder. A
 node is missing from the parent map when it has no parent.
 */
module Hierarchy {
  import opened Sorting

  type Node = nat
  type Parents = map<Node, Node>

  // ----- ancestors -----

  /** Climbing k edges from a node leads to this one. */
  ghost predicate Climbs(parent: Parents, n: Node, k: nat, m: Node)
    decreases k
  {
    if k == 0 then n == m else n in parent && Climbs(parent, parent[n], k - 1, m)
  }

  ghost predicate IsAncestor(parent: Parents, n: Node, m: Node) {
    exists k: nat :: Climbs(parent, n, k, m)
  }

  /** All ancestors of a node, itself included. */
  ghost function Ancestors(parent: Parents, n: Node): (r: set<Node>)
    ensures forall m :: m in r <==> IsAncestor(parent, n, m)
  {
    forall m | IsAncestor(parent, n, m) ensures m in {n} + parent.Values {
      var k: nat :| Climbs(parent, n, k, m);
      ClimbEnds(parent, n, k, m);
    }
    set m | m in {n} + parent.Values && IsAncestor(parent, n, m)
  }

  lemma {:induction false} ClimbEnds(parent: Parents, n: Node, k: nat, m: Node)
    requires Climbs(parent, n, k, m)
    ensures m in {n} + parent.Values
    decreases k
  {
    if k > 0 {
      ClimbEnds(parent, parent[n], k - 1, m);
    }
  }

  lemma {:induction false} ClimbOn(parent: Parents, n: Node, k: nat, m: Node, j: nat, q: Node)
    requires Climbs(parent, n, k, m) && Climbs(parent, m, j, q)
    ensures Climbs(parent, n, k + j, q)
    decreases k
  {
    if k > 0 {
      ClimbOn(parent, parent[n], k - 1, m, j, q);
    }
  }

  lemma AncestorsTransitive(parent: Parents, n: Node, m: Node)
    requires m in Ancestors(parent, n)
    ensures Ancestors(parent, m) <= Ancestors(parent, n)
  {
    var k: nat :| Climbs(parent, n, k, m);
    forall q | q in Ancestors(parent, m) ensures q in Ancestors(parent, n) {
      var j: nat :| Climbs(parent, m, j, q);
      ClimbOn(parent, n, k, m, j, q);
    }
  }

  /** A node's ancestors are itself and those of its parent. */
  lemma AncestorsStep(parent: Parents, n: Node)
    ensures n in Ancestors(parent, n)
    ensures Ancestors(parent, n) == if n in parent then {n} + Ancestors(parent, parent[n]) else {n}
  {
    assert Climbs(parent, n, 0, n);
    forall m | m in Ancestors(parent, n) && m != n ensures n in parent && m in Ancestors(parent, parent[n]) {
      var k: nat :| Climbs(parent, n, k, m);
      assert Climbs(parent, parent[n], k - 1, m);
    }
    if n in parent {
      forall m | m in Ancestors(parent, parent[n]) ensures m in Ancestors(parent, n) {
        var k: nat :| Climbs(parent, parent[n], k, m);
        assert Climbs(parent, n, k + 1, m);
      }
    }
  }

  /** Every step up from these nodes stays among them, but for a step to the node ahead. */
  ghost predicate ClosedUpTo(parent: Parents, path: set<Node>, ahead: set<Node>) {
    forall m | m in path && m in parent :: parent[m] in path || parent[m] in ahead
  }

  lemma {:induction false} ClosedHoldsAll(parent: Parents, path: set<Node>, n: Node, k: nat, m: Node)
    requires ClosedUpTo(parent, path, {}) && n in path && Climbs(parent, n, k, m)
    ensures m in path
    decreases k
  {
    if k > 0 {
      ClosedHoldsAll(parent, path, parent[n], k - 1, m);
    }
  }

  lemma ClosedHoldsAncestors(parent: Parents, path: set<Node>, n: Node)
    requires ClosedUpTo(parent, path, {}) && n in path
    ensures Ancestors(parent, n) <= path
  {
    forall m | m in Ancestors(parent, n) ensures m in path {
      var k: nat :| Climbs(parent, n, k, m);
      ClosedHoldsAll(parent, path, n, k, m);
    }
  }

  lemma FewerLeft(all: set<Node>, path: set<Node>, n: Node)
    requires n in all && n !in path
    ensures |all - (path + {n})| < |all - path|
  {
    assert all - path == (all - (path + {n})) + {n};
  }

  /** The guarded walk: it ends on every finite parent map, cyclic or not, with all ancestors. */
  method NodeAncestors(node: Node, parent: Parents) returns (path: set<Node>)
    ensures path == Ancestors(parent, node)
  {
    ghost var all := Ancestors(parent, node);
    AncestorsStep(parent, node);
    path := {};
    var current, more := node, true;
    while more
      invariant path <= all && (node in path || (more && current == node))
      invariant more ==> current in all
      invariant ClosedUpTo(parent, path, if more then {current} else {})
      decreases |all - path|, more
    {
      if current in path {
        more := false;
      } else {
        FewerLeft(all, path, current);
        path := path + {current};
        if current in parent {
          ParentIsAncestor(parent, node, current);
          current := parent[current];
        } else {
          more := false;
        }
      }
    }
    ClosedHoldsAncestors(parent, path, node);
  }

  lemma ParentIsAncestor(parent: Parents, n: Node, m: Node)
    requires m in Ancestors(parent, n) && m in parent
    ensures parent[m] in Ancestors(parent, n)
  {
    AncestorsTransitive(parent, n, m);
    AncestorsStep(parent, m);
    AncestorsStep(parent, parent[m]);
  }

  /** The ancestor sets of some nodes, computed once. */
  method BuildAncestorCache(nodes: seq<Node>, parent: Parents) returns (cache: map<Node, set<Node>>)
    ensures forall n :: n in cache <==> n in nodes
    ensures forall n | n in cache :: cache[n] == Ancestors(parent, n)
  {
    cache := map[];
    for i := 0 to |nodes|
      invariant forall n :: n in cache <==> n in nodes[..i]
      invariant forall n | n in cache :: cache[n] == Ancestors(parent, n)
    {
      var path := NodeAncestors(nodes[i], parent);
      cache := cache[nodes[i] := path];
    }
  }

  // ----- distance -----

  function SymmetricDifference(a: set<Node>, b: set<Node>): nat {
    |a - b| + |b - a|
  }

  ghost function Distance(parent: Parents, a: Node, b: Node): nat {
    SymmetricDifference(Ancestors(parent, a), Ancestors(parent, b))
  }

  method HierarchyDistance(a: Node, b: Node, parent: Parents) returns (d: nat)
    ensures d == Distance(parent, a, b)
  {
    var x := NodeAncestors(a, parent);
    var y := NodeAncestors(b, parent);
    d := SymmetricDifference(x, y);
  }

  /** The cached distance is the distance. */
  method HierarchyDistanceCached(a: Node, b: Node, cache: map<Node, set<Node>>, ghost parent: Parents) returns (d: nat)
    requires a in cache && b in cache && forall n | n in cache :: cache[n] == Ancestors(parent, n)
    ensures d == Distance(parent, a, b)
  {
    d := SymmetricDifference(cache[a], cache[b]);
  }

  lemma TriangleOfSets(a: set<Node>, b: set<Node>, c: set<Node>)
    ensures SymmetricDifference(a, c) <= SymmetricDifference(a, b) + SymmetricDifference(b, c)
  {
    SubsetSize(a - c, (a - b) + (b - c));
    SubsetSize(c - a, (c - b) + (b - a));
    UnionAtMost(a - b, b - c);
    UnionAtMost(c - b, b - a);
  }

  lemma UnionAtMost(a: set<Node>, b: set<Node>)
    ensures |a + b| <= |a| + |b|
  {
    SubsetSize(b - a, b);
    assert a + b == a + (b - a);
  }

  lemma ZeroDifference(a: set<Node>, b: set<Node>)
    ensures SymmetricDifference(a, b) == 0 <==> a == b
  {
    if a == b {
      assert a - b == {} && b - a == {};
    }
    if |a - b| == 0 && |b - a| == 0 {
      assert a - b == {} && b - a == {};
    }
  }

  lemma MutualAncestors(parent: Parents, a: Node, b: Node)
    ensures Ancestors(parent, a) == Ancestors(parent, b) <==> a in Ancestors(parent, b) && b in Ancestors(parent, a)
  {
    AncestorsStep(parent, a);
    AncestorsStep(parent, b);
    if a in Ancestors(parent, b) && b in Ancestors(parent, a) {
      AncestorsTransitive(parent, a, b);
      AncestorsTransitive(parent, b, a);
    }
  }

  /** On every parent map the distance is a pseudometric, zero exactly between mutual ancestors. */
  lemma DistanceIsPseudometric(parent: Parents, a: Node, b: Node, c: Node)
    ensures Distance(parent, a, b) == Distance(parent, b, a)
    ensures Distance(parent, a, c) <= Distance(parent, a, b) + Distance(parent, b, c)
    ensures Distance(parent, a, b) == 0 <==> a in Ancestors(parent, b) && b in Ancestors(parent, a)
  {
    TriangleOfSets(Ancestors(parent, a), Ancestors(parent, b), Ancestors(parent, c));
    ZeroDifference(Ancestors(parent, a), Ancestors(parent, b));
    MutualAncestors(parent, a, b);
  }

  // ----- forests -----

  /** No node is above itself. */
  ghost predicate Forest(parent: Parents) {
    forall n | n in parent :: n !in Ancestors(parent, parent[n])
  }

  lemma ForestAntisymmetric(parent: Parents, a: Node, b: Node)
    requires Forest(parent) && a in Ancestors(parent, b) && b in Ancestors(parent, a)
    ensures a == b
  {
    AncestorsStep(parent, a);
    if a != b {
      AncestorsTransitive(parent, parent[a], b);
    }
  }

  /** On a forest it is a metric. */
  lemma DistanceIsMetric(parent: Parents, a: Node, b: Node, c: Node)
    requires Forest(parent)
    ensures Distance(parent, a, b) == Distance(parent, b, a)
    ensures Distance(parent, a, c) <= Distance(parent, a, b) + Distance(parent, b, c)
    ensures Distance(parent, a, b) == 0 <==> a == b
  {
    DistanceIsPseudometric(parent, a, b, c);
    AncestorsStep(parent, a);
    if Distance(parent, a, b) == 0 {
      ForestAntisymmetric(parent, a, b);
    }
  }

  /** A parent map has a cycle exactly when two different nodes are at distance zero, or a node is its own parent. */
  lemma CycleMeansZero(parent: Parents)
    ensures !Forest(parent) <==>
            (exists a: Node, b: Node :: a != b && Distance(parent, a, b) == 0)
              || (exists n :: n in parent && parent[n] == n)
  {
    if !Forest(parent) {
      var n :| n in parent && n in Ancestors(parent, parent[n]);
      AncestorsStep(parent, n);
      AncestorsStep(parent, parent[n]);
      DistanceIsPseudometric(parent, n, parent[n], n);
    }
    if a: Node, b: Node :| a != b && Distance(parent, a, b) == 0 {
      DistanceIsPseudometric(parent, a, b, a);
      if Forest(parent) {
        ForestAntisymmetric(parent, a, b);
      }
    }
    if n :| n in parent && parent[n] == n {
      AncestorsStep(parent, n);
    }
  }

  // ----- walks -----

  /** An edge of the hierarchy, in either direction. */
  predicate Edge(parent: Parents, a: Node, b: Node) {
    (a in parent && parent[a] == b) || (b in parent && parent[b] == a)
  }

  ghost predicate Walk(parent: Parents, p: seq<Node>, a: Node, b: Node) {
    && p != [] && p[0] == a && p[|p| - 1] == b
    && forall i | 0 <= i < |p| - 1 :: Edge(parent, p[i], p[i + 1])
  }

  lemma EdgeIsOne(parent: Parents, a: Node, b: Node)
    requires Forest(parent) && Edge(parent, a, b)
    ensures Distance(parent, a, b) == 1
  {
    var child, up := if a in parent && parent[a] == b then a else b, if a in parent && parent[a] == b then b else a;
    AncestorsStep(parent, child);
    assert Ancestors(parent, child) - Ancestors(parent, up) == {child};
    assert Ancestors(parent, up) - Ancestors(parent, child) == {};
  }

  /** No walk is shorter than the distance. */
  lemma {:induction false} WalkAtLeast(parent: Parents, p: seq<Node>, a: Node, b: Node)
    requires Forest(parent) && Walk(parent, p, a, b)
    ensures Distance(parent, a, b) <= |p| - 1
    decreases |p|
  {
    if |p| == 1 {
      DistanceIsMetric(parent, a, b, a);
    } else {
      WalkAtLeast(parent, p[1..], p[1], b);
      EdgeIsOne(parent, p[0], p[1]);
      DistanceIsMetric(parent, a, p[1], b);
    }
  }

  /** The two nodes hang under a common node. */
  ghost predicate Related(parent: Parents, a: Node, b: Node) {
    Ancestors(parent, a) * Ancestors(parent, b) != {}
  }

  lemma {:induction false} WalkRelates(parent: Parents, p: seq<Node>, a: Node, b: Node)
    requires Walk(parent, p, a, b)
    ensures Related(parent, a, b)
    decreases |p|
  {
    AncestorsStep(parent, a);
    if |p| == 1 {
      assert a in Ancestors(parent, a) * Ancestors(parent, b);
    } else {
      var next := p[1];
      WalkRelates(parent, p[1..], next, b);
      var m :| m in Ancestors(parent, next) * Ancestors(parent, b);
      assert Edge(parent, p[0], p[1]);
      AncestorsStep(parent, next);
      if next in parent && parent[next] == a {
        if m == next {
          AncestorsTransitive(parent, b, next);
          assert a in Ancestors(parent, a) * Ancestors(parent, b);
        } else {
          assert m in Ancestors(parent, a) * Ancestors(parent, b);
        }
      } else {
        assert m in Ancestors(parent, a) * Ancestors(parent, b);
      }
    }
  }

  /** One step up from a node that the other does not hang under brings them one closer. */
  lemma StepUpCloser(parent: Parents, a: Node, b: Node)
    requires Forest(parent) && Related(parent, a, b) && a !in Ancestors(parent, b)
    ensures a in parent && Related(parent, parent[a], b)
    ensures Distance(parent, a, b) == Distance(parent, parent[a], b) + 1
    ensures |Ancestors(parent, parent[a])| < |Ancestors(parent, a)|
  {
    AncestorsStep(parent, a);
    var m :| m in Ancestors(parent, a) * Ancestors(parent, b);
    assert m in Ancestors(parent, parent[a]) * Ancestors(parent, b);
    OneMore(Ancestors(parent, parent[a]), Ancestors(parent, b), a);
  }

  lemma OneMore(y: set<Node>, z: set<Node>, a: Node)
    requires a !in y && a !in z
    ensures SymmetricDifference({a} + y, z) == SymmetricDifference(y, z) + 1
    ensures |y| < |{a} + y|
  {
    var x := {a} + y;
    assert x - z == {a} + (y - z) && z - x == z - y;
  }

  lemma WalkFromStep(parent: Parents, a: Node, next: Node, b: Node, p: seq<Node>)
    requires Edge(parent, a, next) && Walk(parent, p, next, b)
    ensures Walk(parent, [a] + p, a, b)
  {
  }

  lemma WalkToStep(parent: Parents, a: Node, last: Node, b: Node, p: seq<Node>)
    requires Edge(parent, last, b) && Walk(parent, p, a, last)
    ensures Walk(parent, p + [b], a, b)
  {
  }

  /** Between nodes of one tree there is a walk of exactly that length. */
  lemma {:induction false} WalkExists(parent: Parents, a: Node, b: Node) returns (p: seq<Node>)
    requires Forest(parent) && Related(parent, a, b)
    ensures Walk(parent, p, a, b) && |p| - 1 == Distance(parent, a, b)
    decreases |Ancestors(parent, a)| + |Ancestors(parent, b)|
  {
    if a == b {
      DistanceIsMetric(parent, a, b, a);
      p := [a];
    } else if a !in Ancestors(parent, b) {
      StepUpCloser(parent, a, b);
      var rest := WalkExists(parent, parent[a], b);
      WalkFromStep(parent, a, parent[a], b, rest);
      p := [a] + rest;
    } else {
      NotBoth(parent, a, b);
      RelatedSymmetric(parent, a, b);
      StepUpCloser(parent, b, a);
      RelatedSymmetric(parent, parent[b], a);
      DistanceIsMetric(parent, a, b, a);
      DistanceIsMetric(parent, a, parent[b], a);
      var rest := WalkExists(parent, a, parent[b]);
      WalkToStep(parent, a, parent[b], b, rest);
      p := rest + [b];
    }
  }

  lemma NotBoth(parent: Parents, a: Node, b: Node)
    requires Forest(parent) && a in Ancestors(parent, b) && a != b
    ensures b !in Ancestors(parent, a)
  {
    if b in Ancestors(parent, a) {
      ForestAntisymmetric(parent, a, b);
    }
  }

  lemma RelatedSymmetric(parent: Parents, a: Node, b: Node)
    requires Related(parent, a, b)
    ensures Related(parent, b, a)
  {
    assert Ancestors(parent, a) * Ancestors(parent, b) == Ancestors(parent, b) * Ancestors(parent, a);
  }

  /**
   On a forest two nodes are connected exactly when they hang under a common node, and then the
   distance is the length of the shortest walk between them.
   */
  lemma DistanceIsShortestWalk(parent: Parents, a: Node, b: Node)
    requires Forest(parent)
    ensures (exists p :: Walk(parent, p, a, b)) <==> Related(parent, a, b)
    ensures Related(parent, a, b) ==> exists p :: Walk(parent, p, a, b) && |p| - 1 == Distance(parent, a, b)
    ensures forall p | Walk(parent, p, a, b) :: Distance(parent, a, b) <= |p| - 1
  {
    if p :| Walk(parent, p, a, b) {
      WalkRelates(parent, p, a, b);
    }
    if Related(parent, a, b) {
      var p := WalkExists(parent, a, b);
    }
    forall p | Walk(parent, p, a, b) ensures Distance(parent, a, b) <= |p| - 1 {
      WalkAtLeast(parent, p, a, b);
    }
  }

  /** Unrelated nodes are as far apart as both are deep. */
  lemma UnrelatedDistance(parent: Parents, a: Node, b: Node)
    requires !Related(parent, a, b)
    ensures Distance(parent, a, b) == |Ancestors(parent, a)| + |Ancestors(parent, b)|
  {
    assert Ancestors(parent, a) - Ancestors(parent, b) == Ancestors(parent, a);
    assert Ancestors(parent, b) - Ancestors(parent, a) == Ancestors(parent, b);
  }
}
