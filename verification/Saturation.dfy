/**
 Diagnosing duties left open: clusters of date-overlapping duties found by union-find, the
 date hull of a cluster, and which soldiers of the pool are free over it.
 */
module Saturation {
  import opened Domain
  import opened Sums
  import opened UnionFind
  import opened Components

  predicate RangesOverlap(aStart: int, aEnd: int, bStart: int, bEnd: int) {
    aStart < bEnd && bStart < aEnd
  }

  predicate DutiesOverlap(a: Duty, b: Duty) {
    RangesOverlap(a.start, a.end, b.start, b.end)
  }

  // ----- clusters -----

  /** The graph on duty positions whose edges are the overlapping pairs. */
  ghost predicate IsOverlapGraph(duties: seq<Duty>, es: Edges) {
    forall i: nat, j: nat :: (i, j) in es <==> i < j < |duties| && DutiesOverlap(duties[i], duties[j])
  }

  ghost predicate InSomeCluster(clusters: seq<seq<nat>>, di: nat) {
    exists i: nat :: i < |clusters| && di in clusters[i]
  }

  /** The clusters are exactly the connected components of the overlap relation. */
  ghost predicate AreClusters(n: nat, es: Edges, clusters: seq<seq<nat>>) {
    && (forall i: nat | i < |clusters| :: clusters[i] != [] && Increasing(clusters[i]) && Below(clusters[i], n))
    && (forall di: nat | di < n :: InSomeCluster(clusters, di))
    && (forall i: nat, j: nat, di: nat, dj: nat |
          i < |clusters| && j < |clusters| && di in clusters[i] && dj in clusters[j] ::
          i == j <==> Linked(es, di, dj))
  }

  /** The edges joined before the pair (i, j) is looked at. */
  ghost predicate JoinedBefore(duties: seq<Duty>, es: Edges, i: nat, j: nat) {
    forall a: nat, b: nat ::
      (a, b) in es <==> (a < i || (a == i && b < j)) && a < b < |duties| && DutiesOverlap(duties[a], duties[b])
  }

  lemma JoinedOneMore(duties: seq<Duty>, es: Edges, i: nat, j: nat)
    requires i < j < |duties| && JoinedBefore(duties, es, i, j)
    ensures JoinedBefore(duties, if DutiesOverlap(duties[i], duties[j]) then es + [(i, j)] else es, i, j + 1)
  {
  }

  method JoinOverlapping(duties: seq<Duty>) returns (sets: DisjointSets, ghost es: Edges)
    ensures fresh(sets) && fresh(sets.parent) && sets.Valid()
    ensures |sets.root| == |duties| && Decides(sets.root, es)
    ensures IsOverlapGraph(duties, es)
  {
    var n := |duties|;
    sets := new DisjointSets(n);
    es := [];
    EmptyGraphDecided(sets.root);
    var i: nat := 0;
    while i < n
      invariant i <= n && sets.Valid() && fresh(sets) && fresh(sets.parent)
      invariant |sets.root| == n && Decides(sets.root, es)
      invariant JoinedBefore(duties, es, i, i)
    {
      var j: nat := i + 1;
      while j < n
        invariant i < j <= n && sets.Valid() && fresh(sets) && fresh(sets.parent)
        invariant |sets.root| == n && Decides(sets.root, es)
        invariant JoinedBefore(duties, es, i, j)
      {
        JoinedOneMore(duties, es, i, j);
        if DutiesOverlap(duties[i], duties[j]) {
          MergedDecides(sets.root, es, i, j);
          sets.Union(i, j);
          es := es + [(i, j)];
        }
        j := j + 1;
      }
      i := i + 1;
    }
  }

  /** The clusters are the classes of duties joined by chains of overlaps. */
  ghost predicate ClusteredByOverlap(duties: seq<Duty>, clusters: seq<seq<nat>>) {
    exists es: Edges :: IsOverlapGraph(duties, es) && AreClusters(|duties|, es, clusters)
  }

  method ClusterByDateOverlap(duties: seq<Duty>) returns (clusters: seq<seq<nat>>)
    ensures ClusteredByOverlap(duties, clusters)
  {
    ghost var es;
    var sets;
    sets, es := JoinOverlapping(duties);
    var order, groups := GroupByRoot(sets, 0, |duties|);
    clusters := [];
    for k := 0 to |order|
      invariant |clusters| == k
      invariant forall c | 0 <= c < k :: clusters[c] == ClassMembers(sets.root, 0, |duties|, order[c])
    {
      clusters := clusters + [groups[order[k]]];
    }
    RootsGiveClusters(|duties|, es, sets.root, order, clusters);
  }

  lemma RootsGiveClusters(n: nat, es: Edges, rep: seq<nat>, order: seq<nat>, clusters: seq<seq<nat>>)
    requires |rep| == n && Decides(rep, es) && |clusters| == |order|
    requires forall i, j | 0 <= i < j < |order| :: order[i] != order[j]
    requires forall r: nat | r !in order :: ClassMembers(rep, 0, n, r) == []
    requires forall i | 0 <= i < |order| :: ClassMembers(rep, 0, n, order[i]) != []
    requires forall c | 0 <= c < |clusters| :: clusters[c] == ClassMembers(rep, 0, n, order[c])
    ensures AreClusters(n, es, clusters)
  {
    forall di: nat | di < n ensures InSomeCluster(clusters, di) {
      assert di in ClassMembers(rep, 0, n, rep[di]);
      var i: nat :| i < |order| && order[i] == rep[di];
      assert di in clusters[i];
    }
    forall i: nat, j: nat, di: nat, dj: nat |
      i < |clusters| && j < |clusters| && di in clusters[i] && dj in clusters[j]
      ensures i == j <==> Linked(es, di, dj)
    {
      assert rep[di] == order[i] && rep[dj] == order[j];
      assert i < j ==> order[i] != order[j];
      assert j < i ==> order[j] != order[i];
    }
  }

  // ----- hulls -----

  function FirstDay(duties: seq<Duty>, c: seq<nat>): (r: int)
    requires c != [] && Below(c, |duties|)
    ensures exists k | 0 <= k < |c| :: duties[c[k]].start == r
    ensures forall k | 0 <= k < |c| :: r <= duties[c[k]].start
  {
    var last := duties[c[|c| - 1]].start;
    if |c| == 1 then last
    else
      var before := FirstDay(duties, c[..|c| - 1]);
      if last < before then last else before
  }

  function LastDay(duties: seq<Duty>, c: seq<nat>): (r: int)
    requires c != [] && Below(c, |duties|)
    ensures exists k | 0 <= k < |c| :: duties[c[k]].end == r
    ensures forall k | 0 <= k < |c| :: duties[c[k]].end <= r
  {
    var last := duties[c[|c| - 1]].end;
    if |c| == 1 then last
    else
      var before := LastDay(duties, c[..|c| - 1]);
      if last > before then last else before
  }

  /** Along a chain of overlapping duties that begins by day t and ends after it, one covers t. */
  lemma {:induction false} ChainCovers(duties: seq<Duty>, es: Edges, p: seq<nat>, t: int) returns (k: nat)
    requires IsOverlapGraph(duties, es) && IsWalk(es, p)
    requires forall i | 0 <= i < |p| :: p[i] < |duties|
    requires duties[p[0]].start <= t < duties[p[|p| - 1]].end
    ensures k < |p| && duties[p[k]].start <= t < duties[p[k]].end
    decreases |p|
  {
    if t < duties[p[0]].end {
      return 0;
    }
    assert |p| > 1;
    assert Adjacent(es, p[0], p[1]);
    assert DutiesOverlap(duties[p[0]], duties[p[1]]);
    k := ChainCovers(duties, es, p[1..], t);
    k := k + 1;
  }

  /** Walks from a duty reach only its own cluster. */
  lemma {:induction false} WalkStaysInGraph(duties: seq<Duty>, es: Edges, p: seq<nat>)
    requires IsOverlapGraph(duties, es) && IsWalk(es, p) && p[0] < |duties|
    ensures forall i | 0 <= i < |p| :: p[i] < |duties| && Linked(es, p[0], p[i])
  {
    forall i | 0 <= i < |p| ensures p[i] < |duties| && Linked(es, p[0], p[i]) {
      assert Joins(es, p[..i + 1], p[0], p[i]);
      if i > 0 {
        assert Adjacent(es, p[i - 1], p[i]);
      }
    }
  }

  /** Every day of a cluster's hull is served by one of its duties. */
  lemma HullIsCovered(duties: seq<Duty>, clusters: seq<seq<nat>>, c: nat, t: int) returns (di: nat)
    requires ClusteredByOverlap(duties, clusters) && c < |clusters|
    requires FirstDay(duties, clusters[c]) <= t < LastDay(duties, clusters[c])
    ensures di in clusters[c] && di < |duties| && duties[di].start <= t < duties[di].end
  {
    var es: Edges :| IsOverlapGraph(duties, es) && AreClusters(|duties|, es, clusters);
    var cl := clusters[c];
    var a: nat :| a < |cl| && duties[cl[a]].start == FirstDay(duties, cl);
    var b: nat :| b < |cl| && duties[cl[b]].end == LastDay(duties, cl);
    assert cl[a] in cl && cl[b] in cl;
    assert Linked(es, cl[a], cl[b]);
    var p :| Joins(es, p, cl[a], cl[b]);
    WalkStaysInGraph(duties, es, p);
    var k := ChainCovers(duties, es, p, t);
    di := p[k];
    assert InSomeCluster(clusters, di);
    var e: nat :| e < |clusters| && di in clusters[e];
    assert c == e;
  }

  /** Two clusters whose hulls met would overlap. */
  lemma HullsDisjoint(duties: seq<Duty>, clusters: seq<seq<nat>>, c: nat, d: nat)
    requires ClusteredByOverlap(duties, clusters)
    requires c < |clusters| && d < |clusters| && c != d
    requires forall i | 0 <= i < |duties| :: duties[i].start < duties[i].end
    ensures !RangesOverlap(FirstDay(duties, clusters[c]), LastDay(duties, clusters[c]),
                           FirstDay(duties, clusters[d]), LastDay(duties, clusters[d]))
  {
    var a0, a1 := FirstDay(duties, clusters[c]), LastDay(duties, clusters[c]);
    var b0, b1 := FirstDay(duties, clusters[d]), LastDay(duties, clusters[d]);
    HullNonEmpty(duties, clusters[c]);
    HullNonEmpty(duties, clusters[d]);
    if RangesOverlap(a0, a1, b0, b1) {
      var t := if a0 < b0 then b0 else a0;
      var u := HullIsCovered(duties, clusters, c, t);
      var v := HullIsCovered(duties, clusters, d, t);
      var es: Edges :| IsOverlapGraph(duties, es) && AreClusters(|duties|, es, clusters);
      OverlapLinks(duties, es, u, v);
    }
  }

  lemma HullNonEmpty(duties: seq<Duty>, c: seq<nat>)
    requires c != [] && Below(c, |duties|)
    requires forall i | 0 <= i < |duties| :: duties[i].start < duties[i].end
    ensures FirstDay(duties, c) < LastDay(duties, c)
  {
    assert duties[c[0]].start < duties[c[0]].end;
  }

  lemma OverlapLinks(duties: seq<Duty>, es: Edges, u: nat, v: nat)
    requires IsOverlapGraph(duties, es) && u < |duties| && v < |duties|
    requires DutiesOverlap(duties[u], duties[v])
    ensures Linked(es, u, v)
  {
    LinkedSelf(es, u);
    if u < v {
      LinkedEdge(es, u, v);
    } else if v < u {
      assert (v, u) in es;
      LinkedEdge(es, u, v);
    }
  }

  // ----- the pool of a cluster -----

  datatype Commitment = Commitment(start: int, end: int, dutyType: Id)

  /** Commitments that meet the hull. */
  predicate BusyOver(commitments: seq<Commitment>, from: int, to: int) {
    exists k | 0 <= k < |commitments| :: RangesOverlap(commitments[k].start, commitments[k].end, from, to)
  }

  /** A commitment stands in the way of one particular duty. */
  predicate BusyFor(commitments: seq<Commitment>, d: Duty) {
    BusyOver(commitments, d.start, d.end)
  }

  /** The hull test finds exactly the soldiers committed against at least one duty of the cluster. */
  lemma HullTestExact(duties: seq<Duty>, clusters: seq<seq<nat>>, c: nat, commitments: seq<Commitment>)
    requires ClusteredByOverlap(duties, clusters) && c < |clusters|
    requires forall i | 0 <= i < |duties| :: duties[i].start < duties[i].end
    requires forall k | 0 <= k < |commitments| :: commitments[k].start < commitments[k].end
    ensures BusyOver(commitments, FirstDay(duties, clusters[c]), LastDay(duties, clusters[c]))
            <==> exists j | 0 <= j < |clusters[c]| :: BusyFor(commitments, duties[clusters[c][j]])
  {
    var cl := clusters[c];
    var from, to := FirstDay(duties, cl), LastDay(duties, cl);
    HullNonEmpty(duties, cl);
    if BusyOver(commitments, from, to) {
      var k :| 0 <= k < |commitments| && RangesOverlap(commitments[k].start, commitments[k].end, from, to);
      var t := if commitments[k].start < from then from else commitments[k].start;
      var di := HullIsCovered(duties, clusters, c, t);
      var j :| 0 <= j < |cl| && cl[j] == di;
      assert BusyFor(commitments, duties[cl[j]]);
    }
  }

  /** Soldiers eligible for some duty of the cluster. */
  function EligibleForSome(eligible: (nat, Duty) -> bool, duties: seq<Duty>, c: seq<nat>): nat -> bool
    requires Below(c, |duties|)
  {
    (s: nat) => exists j | 0 <= j < |c| :: eligible(s, duties[c[j]])
  }

  /** Those of them that hold no commitment over the hull. */
  function FreeForSome(eligible: (nat, Duty) -> bool, commitmentsOf: nat -> seq<Commitment>, duties: seq<Duty>,
                       c: seq<nat>,
                       from: int, to: int): nat -> bool
    requires Below(c, |duties|)
  {
    (s: nat) => EligibleForSome(eligible, duties, c)(s) && !BusyOver(commitmentsOf(s), from, to)
  }

  /** Busy duty types of one soldier over the hull, each as often as it is committed. */
  function BusyTypes(commitments: seq<Commitment>, from: int, to: int): multiset<Id> {
    if commitments == [] then multiset{}
    else
      var c := commitments[|commitments| - 1];
      BusyTypes(commitments[..|commitments| - 1], from, to)
      + (if RangesOverlap(c.start, c.end, from, to) then multiset{c.dutyType} else multiset{})
  }

  lemma {:induction false} BusyTypesEmpty(commitments: seq<Commitment>, from: int, to: int)
    ensures BusyTypes(commitments, from, to) == multiset{} <==> !BusyOver(commitments, from, to)
  {
    if commitments != [] {
      var n := |commitments| - 1;
      BusyTypesEmpty(commitments[..n], from, to);
      var c := commitments[n];
      if BusyOver(commitments, from, to) && !RangesOverlap(c.start, c.end, from, to) {
        var k :| 0 <= k < |commitments| && RangesOverlap(commitments[k].start, commitments[k].end, from, to);
        assert commitments[..n][k] == commitments[k];
      }
      if RangesOverlap(c.start, c.end, from, to) {
        assert c.dutyType in BusyTypes(commitments, from, to);
      }
    }
  }

  /** How many of the commitments meet the hull and are of this type. */
  function MeetingOfType(commitments: seq<Commitment>, from: int, to: int, t: Id): nat -> bool {
    (k: nat) => k < |commitments| && commitments[k].dutyType == t
                && RangesOverlap(commitments[k].start, commitments[k].end, from, to)
  }

  lemma {:induction false} BusyTypesCount(commitments: seq<Commitment>, from: int, to: int, t: Id)
    ensures BusyTypes(commitments, from, to)[t] == Sum(|commitments|, Bits(MeetingOfType(commitments, from, to, t)))
  {
    if commitments != [] {
      var front := commitments[..|commitments| - 1];
      BusyTypesCount(front, from, to, t);
      SumExt(|front|, Bits(MeetingOfType(front, from, to, t)), Bits(MeetingOfType(commitments, from, to, t)));
    }
  }

  /** What one soldier of the pool adds to the count of a competing type. */
  function Competing(eligible: (nat, Duty) -> bool, commitmentsOf: nat -> seq<Commitment>, duties: seq<Duty>,
                     c: seq<nat>,
                     from: int, to: int, t: Id): nat -> int
    requires Below(c, |duties|)
  {
    (s: nat) =>
      if EligibleForSome(eligible, duties, c)(s)
      then Sum(|commitmentsOf(s)|, Bits(MeetingOfType(commitmentsOf(s), from, to, t))) else 0
  }

  /**
   The eligible soldiers of the pool, those of them without a commitment over the hull, and how
   often each duty type occurs among the commitments of the others.
   */
  method AnalyzeCluster(duties: seq<Duty>, c: seq<nat>, pool: nat, eligible: (nat, Duty) -> bool,
                        commitmentsOf: nat -> seq<Commitment>)
    returns (from: int, to: int, poolSize: nat, free: nat, competing: multiset<Id>)
    requires c != [] && Below(c, |duties|)
    ensures from == FirstDay(duties, c) && to == LastDay(duties, c)
    ensures poolSize == Sum(pool, Bits(EligibleForSome(eligible, duties, c)))
    ensures free == Sum(pool, Bits(FreeForSome(eligible, commitmentsOf, duties, c, from, to)))
    ensures forall t: Id :: competing[t] == Sum(pool, Competing(eligible, commitmentsOf, duties, c, from, to, t))
  {
    from, to := FirstDay(duties, c), LastDay(duties, c);
    poolSize, free, competing := CountPool(duties, c, pool, eligible, commitmentsOf, from, to);
  }

  method CountPool(duties: seq<Duty>, c: seq<nat>, pool: nat, eligible: (nat, Duty) -> bool,
                   commitmentsOf: nat -> seq<Commitment>, from: int, to: int)
    returns (poolSize: nat, free: nat, competing: multiset<Id>)
    requires Below(c, |duties|)
    ensures Counted(duties, c, pool, eligible, commitmentsOf, from, to, poolSize, free, competing)
  {
    poolSize, free, competing := 0, 0, multiset{};
    var s: nat := 0;
    while s < pool
      invariant s <= pool && Counted(duties, c, s, eligible, commitmentsOf, from, to, poolSize, free, competing)
    {
      poolSize, free, competing := CountSoldier(duties, c, s, eligible, commitmentsOf, from, to, poolSize, free,
        competing);
      s := s + 1;
    }
  }

  method CountSoldier(duties: seq<Duty>, c: seq<nat>, s: nat, eligible: (nat, Duty) -> bool,
                      commitmentsOf: nat -> seq<Commitment>, from: int, to: int, poolSize: nat, free: nat,
                      competing: multiset<Id>)
    returns (poolSize': nat, free': nat, competing': multiset<Id>)
    requires Below(c, |duties|) && Counted(duties, c, s, eligible, commitmentsOf, from, to, poolSize, free, competing)
    ensures Counted(duties, c, s + 1, eligible, commitmentsOf, from, to, poolSize', free', competing')
  {
    if EligibleForSome(eligible, duties, c)(s) {
      var busy := BusyTypes(commitmentsOf(s), from, to);
      CountOne(duties, c, s, eligible, commitmentsOf, from, to, poolSize, free, competing);
      return poolSize + 1, if busy == multiset{} then free + 1 else free, competing + busy;
    }
    CountNone(duties, c, s, eligible, commitmentsOf, from, to, poolSize, free, competing);
    return poolSize, free, competing;
  }

  /** The counts over the first s soldiers. */
  ghost predicate Counted(duties: seq<Duty>, c: seq<nat>, s: nat, eligible: (nat, Duty) -> bool,
                          commitmentsOf: nat -> seq<Commitment>, from: int, to: int, poolSize: int, free: int,
                          competing: multiset<Id>)
    requires Below(c, |duties|)
  {
    && poolSize == Sum(s, Bits(EligibleForSome(eligible, duties, c)))
    && free == Sum(s, Bits(FreeForSome(eligible, commitmentsOf, duties, c, from, to)))
    && TypesCounted(duties, c, s, eligible, commitmentsOf, from, to, competing)
  }

  ghost predicate TypesCounted(duties: seq<Duty>, c: seq<nat>, s: nat, eligible: (nat, Duty) -> bool,
                               commitmentsOf: nat -> seq<Commitment>, from: int, to: int, competing: multiset<Id>)
    requires Below(c, |duties|)
  {
    forall t: Id :: competing[t] == Sum(s, Competing(eligible, commitmentsOf, duties, c, from, to, t))
  }

  lemma CountOne(duties: seq<Duty>, c: seq<nat>, s: nat, eligible: (nat, Duty) -> bool,
                 commitmentsOf: nat -> seq<Commitment>, from: int, to: int, poolSize: int, free: int,
                 competing: multiset<Id>)
    requires Below(c, |duties|) && Counted(duties, c, s, eligible, commitmentsOf, from, to, poolSize, free, competing)
    requires EligibleForSome(eligible, duties, c)(s)
    ensures var busy := BusyTypes(commitmentsOf(s), from, to);
            Counted(duties, c, s + 1, eligible, commitmentsOf, from, to,
                    poolSize + 1, if busy == multiset{} then free + 1 else free, competing + busy)
  {
    BusyTypesEmpty(commitmentsOf(s), from, to);
    TypesOneMore(duties, c, s, eligible, commitmentsOf, from, to, competing,
                 competing + BusyTypes(commitmentsOf(s), from, to));
  }

  lemma CountNone(duties: seq<Duty>, c: seq<nat>, s: nat, eligible: (nat, Duty) -> bool,
                  commitmentsOf: nat -> seq<Commitment>, from: int, to: int, poolSize: int, free: int,
                  competing: multiset<Id>)
    requires Below(c, |duties|) && Counted(duties, c, s, eligible, commitmentsOf, from, to, poolSize, free, competing)
    requires !EligibleForSome(eligible, duties, c)(s)
    ensures Counted(duties, c, s + 1, eligible, commitmentsOf, from, to, poolSize, free, competing)
  {
    TypesOneMore(duties, c, s, eligible, commitmentsOf, from, to, competing, competing);
  }

  lemma TypesOneMore(duties: seq<Duty>, c: seq<nat>, s: nat, eligible: (nat, Duty) -> bool,
                     commitmentsOf: nat -> seq<Commitment>, from: int, to: int, competing: multiset<Id>,
                     after: multiset<Id>)
    requires Below(c, |duties|) && TypesCounted(duties, c, s, eligible, commitmentsOf, from, to, competing)
    requires after == if EligibleForSome(eligible, duties, c)(s) then competing + BusyTypes(commitmentsOf(s), from, to)
                      else competing
    ensures TypesCounted(duties, c, s + 1, eligible, commitmentsOf, from, to, after)
  {
    forall t: Id ensures after[t] == Sum(s + 1, Competing(eligible, commitmentsOf, duties, c, from, to, t)) {
      BusyTypesCount(commitmentsOf(s), from, to, t);
    }
  }

  // ----- what a zero free count proves -----

  ghost predicate NonEmptyRanges(commitmentsOf: nat -> seq<Commitment>) {
    forall s: nat :: forall k | 0 <= k < |commitmentsOf(s)| :: commitmentsOf(s)[k].start < commitmentsOf(s)[k].end
  }

  /** A soldier counted as free is one who is committed against none of the cluster's duties. */
  lemma FreeMeansClear(duties: seq<Duty>, clusters: seq<seq<nat>>, c: nat, eligible: (nat, Duty) -> bool,
                       commitmentsOf: nat -> seq<Commitment>, s: nat)
    requires ClusteredByOverlap(duties, clusters) && c < |clusters| && NonEmptyRanges(commitmentsOf)
    requires forall i | 0 <= i < |duties| :: duties[i].start < duties[i].end
    ensures var cl := clusters[c];
            FreeForSome(eligible, commitmentsOf, duties, cl, FirstDay(duties, cl), LastDay(duties, cl))(s)
            <==> EligibleForSome(eligible, duties, cl)(s)
                 && forall j | 0 <= j < |cl| :: !BusyFor(commitmentsOf(s), duties[cl[j]])
  {
    HullTestExact(duties, clusters, c, commitmentsOf(s));
  }

  /** With no free soldier, whoever may take a duty of the cluster is committed against that very duty. */
  ghost predicate ShortfallProven(duties: seq<Duty>, c: seq<nat>, pool: nat, eligible: (nat, Duty) -> bool,
                                  commitmentsOf: nat -> seq<Commitment>)
    requires c != [] && Below(c, |duties|)
  {
    Sum(pool, Bits(FreeForSome(eligible, commitmentsOf, duties, c, FirstDay(duties, c), LastDay(duties, c)))) == 0
    ==> forall s: nat, j: nat | s < pool && j < |c| && eligible(s, duties[c[j]]) ::
      BusyFor(commitmentsOf(s), duties[c[j]])
  }

  ghost predicate AllSpanHull(duties: seq<Duty>, c: seq<nat>)
    requires c != [] && Below(c, |duties|)
  {
    forall j: nat | j < |c| :: duties[c[j]].start == FirstDay(duties, c) && duties[c[j]].end == LastDay(duties, c)
  }

  lemma SpanningProves(duties: seq<Duty>, c: seq<nat>, pool: nat, eligible: (nat, Duty) -> bool,
                       commitmentsOf: nat -> seq<Commitment>)
    requires c != [] && Below(c, |duties|) && AllSpanHull(duties, c)
    ensures ShortfallProven(duties, c, pool, eligible, commitmentsOf)
  {
    var free := FreeForSome(eligible, commitmentsOf, duties, c, FirstDay(duties, c), LastDay(duties, c));
    CountIsZero(pool, free);
    if Sum(pool, Bits(free)) == 0 {
      forall s: nat, j: nat | s < pool && j < |c| && eligible(s, duties[c[j]])
        ensures BusyFor(commitmentsOf(s), duties[c[j]])
      {
        assert !free(s) && EligibleForSome(eligible, duties, c)(s);
      }
    }
  }

  /** A pool of one soldier with a commitment over the hull has nobody free. */
  lemma OneBusySoldier(duties: seq<Duty>, c: seq<nat>, eligible: (nat, Duty) -> bool,
                       commitmentsOf: nat -> seq<Commitment>, day: int)
    requires c != [] && Below(c, |duties|) && FirstDay(duties, c) <= day < LastDay(duties, c)
    requires commitmentsOf(0) == [Commitment(day, day + 1, 0)]
    ensures Sum(1, Bits(FreeForSome(eligible, commitmentsOf, duties, c, FirstDay(duties, c), LastDay(duties, c)))) == 0
  {
    var free := FreeForSome(eligible, commitmentsOf, duties, c, FirstDay(duties, c), LastDay(duties, c));
    assert RangesOverlap(commitmentsOf(0)[0].start, commitmentsOf(0)[0].end, FirstDay(duties, c), LastDay(duties, c));
    CountIsZero(1, free);
  }

  /** A commitment on a day of the hull that a duty leaves out occupies the soldier and not the duty. */
  lemma GapInstance(duties: seq<Duty>, c: seq<nat>, j: nat, day: int, eligible: (nat, Duty) -> bool,
                    commitmentsOf: nat -> seq<Commitment>)
    requires c != [] && Below(c, |duties|) && j < |c|
    requires FirstDay(duties, c) <= day < LastDay(duties, c) && !(duties[c[j]].start <= day < duties[c[j]].end)
    requires eligible(0, duties[c[j]]) && commitmentsOf(0) == [Commitment(day, day + 1, 0)]
    ensures !ShortfallProven(duties, c, 1, eligible, commitmentsOf)
  {
    OneBusySoldier(duties, c, eligible, commitmentsOf, day);
    assert !BusyFor(commitmentsOf(0), duties[c[j]]);
  }

  lemma GapDisproves(duties: seq<Duty>, c: seq<nat>, j: nat, day: int)
    returns (eligible: (nat, Duty) -> bool, commitmentsOf: nat -> seq<Commitment>)
    requires c != [] && Below(c, |duties|) && j < |c|
    requires FirstDay(duties, c) <= day < LastDay(duties, c) && !(duties[c[j]].start <= day < duties[c[j]].end)
    ensures NonEmptyRanges(commitmentsOf) && !ShortfallProven(duties, c, 1, eligible, commitmentsOf)
  {
    eligible := (s: nat, d: Duty) => true;
    commitmentsOf := (s: nat) => [Commitment(day, day + 1, 0)];
    GapInstance(duties, c, j, day, eligible, commitmentsOf);
  }

  /**
   A zero free count proves that nobody can take any duty of the cluster, whatever the pool and
   its commitments, exactly when every duty of the cluster spans the whole hull.
   */
  lemma ShortfallProvenIffAllSpanHull(duties: seq<Duty>, c: seq<nat>)
    requires c != [] && Below(c, |duties|)
    requires forall i | 0 <= i < |duties| :: duties[i].start < duties[i].end
    ensures (forall pool: nat, eligible: (nat, Duty) -> bool, commitmentsOf: nat -> seq<Commitment> |
               NonEmptyRanges(commitmentsOf) :: ShortfallProven(duties, c, pool, eligible, commitmentsOf))
            <==> AllSpanHull(duties, c)
  {
    if AllSpanHull(duties, c) {
      forall pool: nat, eligible: (nat, Duty) -> bool,
        commitmentsOf: nat -> seq<Commitment> | NonEmptyRanges(commitmentsOf)
        ensures ShortfallProven(duties, c, pool, eligible, commitmentsOf)
      {
        SpanningProves(duties, c, pool, eligible, commitmentsOf);
      }
    } else {
      var j: nat :| j < |c| && !(duties[c[j]].start == FirstDay(duties, c) && duties[c[j]].end == LastDay(duties, c));
      HullNonEmpty(duties, c);
      var first, last := FirstDay(duties, c), LastDay(duties, c);
      var day := if duties[c[j]].start != first then first else last - 1;
      var eligible, commitmentsOf := GapDisproves(duties, c, j, day);
    }
  }

  /** Two overlapping duties over three days, and a pool of one soldier who is booked on the third. */
  ghost predicate StaggeredCase(duties: seq<Duty>, eligible: (nat, Duty) -> bool, commitmentsOf: nat -> seq<Commitment>)
  {
    && |duties| == 2 && duties[0].start == 0 && duties[0].end == 2 && duties[1].start == 1 && duties[1].end == 3
    && (forall s: nat, d: Duty :: eligible(s, d))
    && (forall s: nat :: commitmentsOf(s) == [Commitment(2, 3, 0)])
  }

  /**
   The counts of the diagnosis on that input: one eligible soldier, none free, although he has
   every day of the first duty open.
   */
  method DiagnoseStaggered(duties: seq<Duty>, eligible: (nat, Duty) -> bool, commitmentsOf: nat -> seq<Commitment>)
    returns (poolSize: nat, free: nat)
    requires StaggeredCase(duties, eligible, commitmentsOf)
    ensures ClusteredByOverlap(duties, [[0, 1]])
    ensures poolSize == 1 && free == 0
    ensures eligible(0, duties[0]) && !BusyFor(commitmentsOf(0), duties[0])
  {
    StaggeredIsOneCluster(duties);
    var from, to, competing;
    from, to, poolSize, free, competing := AnalyzeCluster(duties, [0, 1], 1, eligible, commitmentsOf);
    StaggeredCounts(duties, eligible, commitmentsOf);
  }

  lemma StaggeredIsOneCluster(duties: seq<Duty>)
    requires |duties| == 2 && DutiesOverlap(duties[0], duties[1])
    ensures ClusteredByOverlap(duties, [[0, 1]])
  {
    var es: Edges := [(0, 1)];
    LinkedSelf(es, 0);
    LinkedSelf(es, 1);
    LinkedEdge(es, 0, 1);
    LinkedEdge(es, 1, 0);
    assert IsOverlapGraph(duties, es);
    var clusters: seq<seq<nat>> := [[0, 1]];
    assert 0 in clusters[0] && 1 in clusters[0];
    assert InSomeCluster(clusters, 0) && InSomeCluster(clusters, 1);
    assert AreClusters(2, es, clusters);
  }

  lemma StaggeredCounts(duties: seq<Duty>, eligible: (nat, Duty) -> bool, commitmentsOf: nat -> seq<Commitment>)
    requires StaggeredCase(duties, eligible, commitmentsOf)
    ensures Sum(1, Bits(EligibleForSome(eligible, duties, [0, 1]))) == 1
    ensures var c := [0, 1];
            Sum(1, Bits(FreeForSome(eligible, commitmentsOf, duties, c, FirstDay(duties, c), LastDay(duties, c)))) == 0
    ensures !BusyFor(commitmentsOf(0), duties[0])
  {
    var c := [0, 1];
    var some := EligibleForSome(eligible, duties, c);
    assert eligible(0, duties[c[0]]);
    assert some(0);
    assert duties[c[0]].start == 0 && duties[c[1]].end == 3;
    assert Sum(0, Bits(some)) == 0;
    OneBusySoldier(duties, c, eligible, commitmentsOf, 2);
  }
}
