/**
 Linking each primary assignment to the closest reserve of its shift.
 */
module Reserves {
  import opened Hierarchy
  import opened Sorting

  type Id = nat

  datatype Post = Post(assignment: Id, soldier: Id, shift: Id)

  datatype ReserveLink = ReserveLink(reserve: Id, primary: Id, distance: nat)

  const FAR := 999      // distances from here on count as no match
  const UNPLACED := 10  // distance when a soldier has no unit

  /** How far a reserve is from a primary; a soldier without a unit is at a fixed distance from everyone. */
  ghost function PostDistance(p: Post, r: Post, nodeOf: map<Id, Node>, parent: Parents): nat {
    if p.soldier !in nodeOf || r.soldier !in nodeOf then UNPLACED
    else Distance(parent, nodeOf[p.soldier], nodeOf[r.soldier])
  }

  /** The reserves of one shift, in the order given. */
  function OfShift(reserves: seq<Post>, shift: Id): (r: seq<Post>)
    ensures forall q :: q in r <==> q in reserves && q.shift == shift
  {
    if reserves == [] then []
    else
      var last := reserves[|reserves| - 1];
      assert reserves == reserves[..|reserves| - 1] + [last];
      OfShift(reserves[..|reserves| - 1], shift) + if last.shift == shift then [last] else []
  }

  ghost predicate HasLink(p: Post, reserves: seq<Post>, nodeOf: map<Id, Node>, parent: Parents) {
    exists r :: r in reserves && r.shift == p.shift && PostDistance(p, r, nodeOf, parent) < FAR
  }

  /** The k-th candidate is the first of those at the least distance. */
  ghost predicate Closest(p: Post, candidates: seq<Post>, k: nat, nodeOf: map<Id, Node>, parent: Parents) {
    && k < |candidates|
    && (forall j | 0 <= j < |candidates| ::
          PostDistance(p, candidates[k], nodeOf, parent) <= PostDistance(p, candidates[j], nodeOf, parent))
    && (forall j | 0 <= j < k ::
          PostDistance(p, candidates[k], nodeOf, parent) < PostDistance(p, candidates[j], nodeOf, parent))
  }

  ghost predicate IsLinkOf(p: Post, link: ReserveLink, reserves: seq<Post>, nodeOf: map<Id, Node>, parent: Parents) {
    exists k: nat :: var candidates := OfShift(reserves, p.shift);
      Closest(p, candidates, k, nodeOf, parent) &&
      link == ReserveLink(candidates[k].assignment, p.assignment, PostDistance(p, candidates[k], nodeOf, parent)) &&
      link.distance < FAR
  }

  /** One link, in order, for every primary that has a reserve near enough, and none for the others. */
  ghost predicate Links(primaries: seq<Post>, links: seq<ReserveLink>, reserves: seq<Post>, nodeOf: map<Id, Node>,
                        parent: Parents)
  {
    if primaries == [] then links == []
    else
      var front, last := primaries[..|primaries| - 1], primaries[|primaries| - 1];
      if HasLink(last, reserves, nodeOf, parent) then
        && links != []
        && IsLinkOf(last, links[|links| - 1], reserves, nodeOf, parent)
        && Links(front, links[..|links| - 1], reserves, nodeOf, parent)
      else Links(front, links, reserves, nodeOf, parent)
  }

  ghost predicate ByShift(reserves: seq<Post>, byShift: map<Id, seq<Post>>) {
    forall s: Id :: OfShift(reserves, s) == if s in byShift then byShift[s] else []
  }

  lemma ByShiftStep(reserves: seq<Post>, r: Post, byShift: map<Id, seq<Post>>)
    requires ByShift(reserves, byShift)
    ensures ByShift(reserves + [r], byShift[r.shift := (if r.shift in byShift then byShift[r.shift] else []) + [r]])
  {
    assert (reserves + [r])[..|reserves|] == reserves;
  }

  /** The reserves of each shift that has any. */
  method ReservesByShift(reserves: seq<Post>) returns (byShift: map<Id, seq<Post>>)
    ensures ByShift(reserves, byShift)
  {
    byShift := map[];
    for i := 0 to |reserves|
      invariant ByShift(reserves[..i], byShift)
    {
      var r := reserves[i];
      assert reserves[..i + 1] == reserves[..i] + [r];
      ByShiftStep(reserves[..i], r, byShift);
      var before := if r.shift in byShift then byShift[r.shift] else [];
      byShift := byShift[r.shift := before + [r]];
    }
    assert reserves[..|reserves|] == reserves;
  }

  /** The first of the closest candidates, unless all are too far. */
  method ClosestReserve(p: Post, candidates: seq<Post>, nodeOf: map<Id, Node>, parent: Parents,
                        cache: map<Node, set<Node>>)
    returns (best: int, distance: nat)
    requires p.soldier in nodeOf && forall n | n in cache :: cache[n] == Ancestors(parent, n)
    ensures best < 0 ==> forall j | 0 <= j < |candidates| :: PostDistance(p, candidates[j], nodeOf, parent) >= FAR
    ensures best >= 0 ==> Closest(p, candidates, best, nodeOf, parent) &&
                          distance == PostDistance(p, candidates[best], nodeOf, parent) < FAR
  {
    best, distance := -1, FAR;
    for i := 0 to |candidates|
      invariant best < i && (best < 0 ==> distance == FAR)
      invariant forall j | 0 <= j < i :: distance <= PostDistance(p, candidates[j], nodeOf, parent)
      invariant best >= 0 ==> distance == PostDistance(p, candidates[best], nodeOf, parent) < FAR
      invariant best >= 0 ==> forall j | 0 <= j < best :: distance < PostDistance(p, candidates[j], nodeOf, parent)
    {
      var r := candidates[i];
      var d := UNPLACED;
      if r.soldier in nodeOf {
        var a, b := nodeOf[p.soldier], nodeOf[r.soldier];
        if b in cache && a in cache {
          d := HierarchyDistanceCached(a, b, cache, parent);
        } else {
          d := HierarchyDistance(a, b, parent);
        }
      }
      assert d == PostDistance(p, r, nodeOf, parent);
      if d < distance {
        best, distance := i, d;
      }
    }
  }

  lemma LinkedWhenClose(p: Post, reserves: seq<Post>, k: nat, nodeOf: map<Id, Node>, parent: Parents)
    requires Closest(p, OfShift(reserves, p.shift), k, nodeOf, parent)
    requires PostDistance(p, OfShift(reserves, p.shift)[k], nodeOf, parent) < FAR
    ensures HasLink(p, reserves, nodeOf, parent)
  {
    assert OfShift(reserves, p.shift)[k] in OfShift(reserves, p.shift);
  }

  lemma NotLinkedWhenFar(p: Post, reserves: seq<Post>, nodeOf: map<Id, Node>, parent: Parents)
    requires var candidates := OfShift(reserves, p.shift);
             forall j | 0 <= j < |candidates| :: PostDistance(p, candidates[j], nodeOf, parent) >= FAR
    ensures !HasLink(p, reserves, nodeOf, parent)
  {
    forall r | r in reserves && r.shift == p.shift ensures PostDistance(p, r, nodeOf, parent) >= FAR {
      assert r in OfShift(reserves, p.shift);
    }
  }

  lemma LinksAppend(primaries: seq<Post>, p: Post, links: seq<ReserveLink>, more: seq<ReserveLink>, reserves: seq<Post>,
                    nodeOf: map<Id, Node>, parent: Parents)
    requires Links(primaries, links, reserves, nodeOf, parent)
    requires LinksOne(p, more, reserves, nodeOf, parent)
    ensures Links(primaries + [p], links + more, reserves, nodeOf, parent)
  {
    assert (primaries + [p])[..|primaries|] == primaries;
    if |more| == 1 {
      assert (links + more)[..|links + more| - 1] == links;
    } else {
      assert links + more == links;
    }
  }

  ghost predicate LinksOne(p: Post, more: seq<ReserveLink>, reserves: seq<Post>, nodeOf: map<Id, Node>, parent: Parents)
  {
    if HasLink(p, reserves, nodeOf, parent) then |more| == 1 && IsLinkOf(p, more[0], reserves, nodeOf, parent)
    else more == []
  }

  lemma LinksStep(primaries: seq<Post>, i: nat, links: seq<ReserveLink>, more: seq<ReserveLink>, reserves: seq<Post>,
                  nodeOf: map<Id, Node>, parent: Parents)
    requires i < |primaries| && Links(primaries[..i], links, reserves, nodeOf, parent)
    requires LinksOne(primaries[i], more, reserves, nodeOf, parent)
    ensures Links(primaries[..i + 1], links + more, reserves, nodeOf, parent)
  {
    assert primaries[..i + 1] == primaries[..i] + [primaries[i]];
    LinksAppend(primaries[..i], primaries[i], links, more, reserves, nodeOf, parent);
  }

  method LinkOne(p: Post, candidates: seq<Post>, ghost reserves: seq<Post>, nodeOf: map<Id, Node>, parent: Parents,
                 cache: map<Node, set<Node>>)
    returns (more: seq<ReserveLink>)
    requires candidates == OfShift(reserves, p.shift)
    requires forall n | n in cache :: cache[n] == Ancestors(parent, n)
    ensures LinksOne(p, more, reserves, nodeOf, parent)
  {
    if candidates == [] {
      more := [];
      NotLinkedWhenFar(p, reserves, nodeOf, parent);
    } else if p.soldier !in nodeOf {
      assert Closest(p, candidates, 0, nodeOf, parent);
      LinkedWhenClose(p, reserves, 0, nodeOf, parent);
      more := [ReserveLink(candidates[0].assignment, p.assignment, UNPLACED)];
    } else {
      var best, distance := ClosestReserve(p, candidates, nodeOf, parent, cache);
      if best >= 0 {
        LinkedWhenClose(p, reserves, best, nodeOf, parent);
        more := [ReserveLink(candidates[best].assignment, p.assignment, distance)];
      } else {
        NotLinkedWhenFar(p, reserves, nodeOf, parent);
        more := [];
      }
    }
  }

  /** Each primary that has a reserve near enough in its shift is linked to the closest one. */
  method LinkReserves(primaries: seq<Post>, reserves: seq<Post>, nodeOf: map<Id, Node>, nodes: seq<Node>,
                      parent: Parents)
    returns (links: seq<ReserveLink>)
    ensures Links(primaries, links, reserves, nodeOf, parent)
  {
    var byShift := ReservesByShift(reserves);
    var cache := BuildAncestorCache(nodes, parent);
    links := [];
    for i := 0 to |primaries|
      invariant Links(primaries[..i], links, reserves, nodeOf, parent)
    {
      var p := primaries[i];
      var candidates := if p.shift in byShift then byShift[p.shift] else [];
      var more := LinkOne(p, candidates, reserves, nodeOf, parent, cache);
      LinksStep(primaries, i, links, more, reserves, nodeOf, parent);
      links := links + more;
    }
    assert primaries[..|primaries|] == primaries;
  }

  // ----- when is everyone with a reserve in the shift linked? -----

  /** Two ancestor sets differ by no more than there are nodes. */
  lemma DistanceAtMostNodes(parent: Parents, a: Node, b: Node, nodes: set<Node>)
    requires Ancestors(parent, a) <= nodes && Ancestors(parent, b) <= nodes
    ensures Distance(parent, a, b) <= |nodes|
  {
    var x, y := Ancestors(parent, a), Ancestors(parent, b);
    SubsetSize((x - y) + (y - x), nodes);
  }

  /** In a hierarchy of fewer than 999 nodes every primary with a reserve in its shift gets a link. */
  lemma SmallHierarchyLinksAll(p: Post, reserves: seq<Post>, nodeOf: map<Id, Node>, parent: Parents)
    requires |nodeOf.Values + parent.Values| < FAR
    ensures HasLink(p, reserves, nodeOf, parent) <==> exists r :: r in reserves && r.shift == p.shift
  {
    if r :| r in reserves && r.shift == p.shift {
      if p.soldier in nodeOf && r.soldier in nodeOf {
        AncestorsWithin(parent, nodeOf[p.soldier]);
        AncestorsWithin(parent, nodeOf[r.soldier]);
        DistanceAtMostNodes(parent, nodeOf[p.soldier], nodeOf[r.soldier], nodeOf.Values + parent.Values);
      }
    }
  }

  lemma AncestorsWithin(parent: Parents, n: Node)
    ensures Ancestors(parent, n) <= {n} + parent.Values
  {
    forall m | m in Ancestors(parent, n) ensures m in {n} + parent.Values {
      var k: nat :| Climbs(parent, n, k, m);
      ClimbEnds(parent, n, k, m);
    }
  }

  /** Units 1 to i form a chain, each under the one numbered one lower, with unit 0 on top. */
  predicate IsChain(parent: Parents, i: nat) {
    if i == 0 then 0 !in parent else i in parent && parent[i] == i - 1 && IsChain(parent, i - 1)
  }

  lemma {:induction false} ChainAncestors(parent: Parents, i: nat)
    requires IsChain(parent, i)
    ensures 0 in Ancestors(parent, i) && (forall m | m in Ancestors(parent, i) :: m <= i)
    ensures |Ancestors(parent, i)| == i + 1
  {
    if i == 0 {
      RootAlone(parent, 0);
    } else {
      AncestorsStep(parent, i);
      ChainAncestors(parent, i - 1);
      AddOne(Ancestors(parent, i - 1), i);
    }
  }

  lemma RootAlone(parent: Parents, n: Node)
    requires n !in parent
    ensures Ancestors(parent, n) == {n}
  {
    AncestorsStep(parent, n);
  }

  lemma AddOne(s: set<Node>, x: Node)
    requires x !in s
    ensures |{x} + s| == |s| + 1
  {
  }

  lemma {:induction false} TopOfChain(parent: Parents, i: nat)
    requires IsChain(parent, i)
    ensures IsChain(parent, 0)
  {
    if i > 0 {
      TopOfChain(parent, i - 1);
    }
  }

  /** A primary deep enough below its only reserve gets no link, though its shift has a reserve. */
  lemma DeepPrimaryUnlinked(parent: Parents, p: Post, r: Post, nodeOf: map<Id, Node>)
    requires IsChain(parent, 999) && p == Post(0, 1, 5) && r == Post(1, 2, 5) && nodeOf == map[1 := 999, 2 := 0]
    ensures !HasLink(p, [r], nodeOf, parent)
  {
    ChainAncestors(parent, 999);
    TopOfChain(parent, 999);
    AncestorsStep(parent, 0);
    DeepDistance(Ancestors(parent, 999), Ancestors(parent, 0));
  }

  lemma DeepDistance(deep: set<Node>, top: set<Node>)
    requires top <= deep
    ensures SymmetricDifference(deep, top) == |deep| - |top|
  {
    assert deep == top + (deep - top);
    assert top - deep == {};
  }
}
