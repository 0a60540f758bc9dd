/**
 The overlap mark of an explanation: two bisects over a soldier's own duties, against a scan of
 all of them.
 */
module Explain {
  import opened Sorting

  type Id = nat

  datatype Block = Block(id: Id, start: int, end: int)

  datatype Placed = Placed(duty: Id, soldier: Id)

  /** Two half-open date ranges share a day. */
  predicate Overlaps(a: Block, b: Block) {
    a.start < b.end && b.start < a.end
  }

  // ----- a soldier's own duties -----

  /** Every assigned duty is among the duties of the run. */
  ghost predicate Known(placed: seq<Placed>, blocks: map<Id, Block>) {
    forall i | 0 <= i < |placed| :: placed[i].duty in blocks
  }

  function OwnDuties(placed: seq<Placed>, blocks: map<Id, Block>, soldier: Id): seq<Block>
    requires Known(placed, blocks)
  {
    if placed == [] then []
    else
      var last := placed[|placed| - 1];
      OwnDuties(placed[..|placed| - 1], blocks, soldier) + if last.soldier == soldier then [blocks[last.duty]] else []
  }

  lemma {:induction false} OwnDutiesMembers(placed: seq<Placed>, blocks: map<Id, Block>, soldier: Id, d: Block)
    requires Known(placed, blocks)
    ensures d in OwnDuties(placed, blocks, soldier) <==>
            exists i :: 0 <= i < |placed| && placed[i].soldier == soldier && blocks[placed[i].duty] == d
  {
    if placed != [] {
      var front := placed[..|placed| - 1];
      OwnDutiesMembers(front, blocks, soldier, d);
      assert forall i | 0 <= i < |front| :: front[i] == placed[i];
    }
  }

  function Starts(ds: seq<Block>): (r: seq<int>)
    ensures |r| == |ds| && forall i | 0 <= i < |r| :: r[i] == ds[i].start
  {
    seq(|ds|, i requires 0 <= i < |ds| => ds[i].start)
  }

  function Ends(ds: seq<Block>): (r: seq<int>)
    ensures |r| == |ds| && forall i | 0 <= i < |r| :: r[i] == ds[i].end
  {
    seq(|ds|, i requires 0 <= i < |ds| => ds[i].end)
  }

  ghost predicate ByStart(ds: seq<Block>) {
    forall i, j | 0 <= i < j < |ds| :: ds[i].start <= ds[j].start
  }

  lemma ConsByStart(d: Block, ds: seq<Block>)
    requires ByStart(ds) && forall q | q in ds :: d.start <= q.start
    ensures ByStart([d] + ds)
  {
  }

  function InsertByStart(d: Block, ds: seq<Block>): (r: seq<Block>)
    requires ByStart(ds)
    ensures ByStart(r) && (forall q :: q in r <==> q == d || q in ds)
    ensures multiset(r) == multiset(ds) + multiset{d}
  {
    if ds == [] then [d]
    else if d.start < ds[0].start then
      ConsByStart(d, ds);
      [d] + ds
    else
      assert ds == [ds[0]] + ds[1..];
      var rest := InsertByStart(d, ds[1..]);
      ConsByStart(ds[0], rest);
      [ds[0]] + rest
  }

  /** Stable sorting by start date. */
  function SortByStart(ds: seq<Block>): (r: seq<Block>)
    ensures ByStart(r) && (forall q :: q in r <==> q in ds)
    ensures multiset(r) == multiset(ds)
  {
    if ds == [] then []
    else
      assert ds == ds[..|ds| - 1] + [ds[|ds| - 1]];
      InsertByStart(ds[|ds| - 1], SortByStart(ds[..|ds| - 1]))
  }

  // ----- the two bisects -----

  /** The window of a soldier's own duties that the explanation looks at. */
  function Window(ds: seq<Block>, q: Block): seq<Block> {
    var lo := BisectRight(Ends(ds), q.start);
    var hi := BisectLeft(Starts(ds), q.end);
    if lo <= hi then ds[lo..hi] else []
  }

  /** Own duties as the solver hands them out: none empty, no two on one day. */
  ghost predicate Tidy(ds: seq<Block>) {
    && (forall i | 0 <= i < |ds| :: ds[i].start < ds[i].end)
    && (forall i, j | 0 <= i < j < |ds| :: !Overlaps(ds[i], ds[j]))
  }

  /** Then the order of starts is the order of ends as well. */
  lemma TidyEndsAscend(ds: seq<Block>)
    requires Tidy(ds) && ByStart(ds)
    ensures Ascending(Starts(ds)) && Ascending(Ends(ds))
  {
    forall i, j | 0 <= i < j < |ds| ensures Starts(ds)[i] <= Starts(ds)[j] && Ends(ds)[i] <= Ends(ds)[j] {
      assert !Overlaps(ds[i], ds[j]) && ds[i].start <= ds[j].start;
    }
  }

  /** Whenever starts and ends both ascend, the window is exactly the overlapping duties. */
  lemma WindowIsOverlap(ds: seq<Block>, q: Block, d: Block)
    requires Ascending(Starts(ds)) && Ascending(Ends(ds))
    ensures d in Window(ds, q) <==> d in ds && Overlaps(d, q)
  {
    var lo := BisectRight(Ends(ds), q.start);
    var hi := BisectLeft(Starts(ds), q.end);
    forall i | 0 <= i < |ds| ensures Overlaps(ds[i], q) <==> lo <= i < hi {
      assert Ends(ds)[i] == ds[i].end && Starts(ds)[i] == ds[i].start;
    }
    if d in ds && Overlaps(d, q) {
      var i :| 0 <= i < |ds| && ds[i] == d;
      assert ds[lo..hi][i - lo] == d;
    }
  }

  /** For every non-empty query the window is exactly the overlapping duties. */
  ghost predicate WindowExact(ds: seq<Block>) {
    forall q: Block, d: Block | q.start < q.end :: d in Window(ds, q) <==> d in ds && Overlaps(d, q)
  }

  ghost predicate NoTwice(ds: seq<Block>) {
    forall i, j | 0 <= i < |ds| && 0 <= j < |ds| && ds[i] == ds[j] :: i == j
  }

  lemma StartsAscend(ds: seq<Block>)
    requires ByStart(ds)
    ensures Ascending(Starts(ds))
  {
  }

  lemma SuffixHoldsLater(ds: seq<Block>, lo: nat, i: nat, j: nat)
    requires NoTwice(ds) && lo <= |ds| && i < j < |ds| && ds[i] in ds[lo..]
    ensures ds[j] in ds[lo..]
  {
    var k :| 0 <= k < |ds[lo..]| && ds[lo..][k] == ds[i];
    assert ds[lo + k] == ds[i];
    assert ds[lo..][j - lo] == ds[j];
  }

  /** A query that ends after every duty starts sees a suffix of them. */
  lemma LateQuerySeesSuffix(ds: seq<Block>, q: Block)
    requires ByStart(ds) && forall d | d in ds :: d.start < q.end
    ensures Window(ds, q) == ds[BisectRight(Ends(ds), q.start)..]
  {
    StartsAscend(ds);
    forall k | 0 <= k < |ds| ensures Starts(ds)[k] < q.end {
      assert ds[k] in ds;
    }
    var lo, hi := BisectRight(Ends(ds), q.start), BisectLeft(Starts(ds), q.end);
    assert SplitsBefore(Starts(ds), q.end, |ds|);
    SplitUnique(Starts(ds), q.end, hi, |ds|);
    assert ds[lo..hi] == ds[lo..];
  }

  lemma LateQuery(ds: seq<Block>, day: int) returns (q: Block)
    ensures q.start == day < q.end && forall d | d in ds :: d.start < q.end
  {
    if ds == [] {
      q := Block(0, day, day + 1);
    } else {
      var last := ds[|ds| - 1].start;
      q := LateQuery(ds[..|ds| - 1], day);
      q := q.(end := if last < q.end then q.end else last + 1);
      assert ds == ds[..|ds| - 1] + [ds[|ds| - 1]];
    }
  }

  /** A query on the day on which the later of two duties ends, while the earlier goes on, gets one of them wrong. */
  lemma LaterEndsFirstMissed(ds: seq<Block>, i: nat, j: nat)
    requires ByStart(ds) && NoTwice(ds) && i < j < |ds| && ds[j].end < ds[i].end
    ensures !WindowExact(ds)
  {
    var q := LateQuery(ds, ds[j].end);
    LateQuerySeesSuffix(ds, q);
    assert ds[i] in ds && ds[j] in ds;
    assert Overlaps(ds[i], q) && !Overlaps(ds[j], q);
    if ds[i] in Window(ds, q) {
      SuffixHoldsLater(ds, BisectRight(Ends(ds), q.start), i, j);
    }
  }

  /**
   The shortcut is right for every query exactly when the order of starts is the order of ends as
   well; it is for duties of which no two overlap.
   */
  lemma WindowExactIffEndsAscend(ds: seq<Block>)
    requires ByStart(ds) && NoTwice(ds)
    ensures WindowExact(ds) <==> Ascending(Ends(ds))
  {
    StartsAscend(ds);
    if Ascending(Ends(ds)) {
      forall q: Block, d: Block | q.start < q.end ensures d in Window(ds, q) <==> d in ds && Overlaps(d, q) {
        WindowIsOverlap(ds, q, d);
      }
    } else {
      var i: nat, j: nat :| i < j < |ds| && Ends(ds)[j] < Ends(ds)[i];
      LaterEndsFirstMissed(ds, i, j);
    }
  }

  /** Why the hypothesis is needed: a duty nested in another one hides it from the window. */
  lemma NestedDutyMissed(ds: seq<Block>, q: Block)
    requires ds == [Block(1, 0, 10), Block(2, 1, 2)] && q == Block(3, 5, 6)
    ensures ByStart(ds) && ds[0] in ds && Overlaps(ds[0], q) && Window(ds, q) == []
    ensures !WindowExact(ds)
  {
    assert BisectRightIn(Ends(ds), 5, 2, 2) == 2;
    assert BisectRightIn(Ends(ds), 5, 0, 2) == 2;
    assert ds[0] !in Window(ds, q);
  }

  // ----- tidiness does not depend on order -----

  ghost predicate Apart(d: Block, ds: seq<Block>) {
    forall q | q in ds :: !Overlaps(d, q)
  }

  lemma ConsTidy(d: Block, ds: seq<Block>)
    requires Tidy(ds) && d.start < d.end && Apart(d, ds)
    ensures Tidy([d] + ds)
  {
  }

  lemma UnconsTidy(ds: seq<Block>)
    requires Tidy(ds) && ds != []
    ensures Tidy(ds[1..]) && Apart(ds[0], ds[1..]) && ds[0].start < ds[0].end
  {
    forall q | q in ds[1..] ensures !Overlaps(ds[0], q) {
      var i :| 0 <= i < |ds[1..]| && ds[1..][i] == q;
      assert ds[i + 1] == q;
    }
  }

  lemma {:induction false} TidyInsert(d: Block, ds: seq<Block>)
    requires ByStart(ds) && Tidy(ds) && d.start < d.end && Apart(d, ds)
    ensures Tidy(InsertByStart(d, ds))
  {
    if ds == [] || d.start < ds[0].start {
      ConsTidy(d, ds);
    } else {
      UnconsTidy(ds);
      assert Apart(d, ds[1..]) && !Overlaps(d, ds[0]);
      TidyInsert(d, ds[1..]);
      assert Apart(ds[0], InsertByStart(d, ds[1..]));
      ConsTidy(ds[0], InsertByStart(d, ds[1..]));
    }
  }

  lemma {:induction false} TidySort(ds: seq<Block>)
    requires Tidy(ds)
    ensures Tidy(SortByStart(ds))
  {
    if ds != [] {
      var front, d := ds[..|ds| - 1], ds[|ds| - 1];
      TidySort(front);
      forall q | q in SortByStart(front) ensures !Overlaps(d, q) {
        var i :| 0 <= i < |front| && front[i] == q;
        assert ds[i] == q;
      }
      TidyInsert(d, SortByStart(front));
    }
  }

  // ----- the code -----

  /** Each soldier's own duties in order of start, for the soldiers that have any. */
  method SoldierDuties(placed: seq<Placed>, blocks: map<Id, Block>) returns (own: map<Id, seq<Block>>)
    requires Known(placed, blocks)
    ensures Prepared(placed, blocks, own)
  {
    var lists: map<Id, seq<Block>>, order: seq<Id> := map[], [];
    for i := 0 to |placed|
      invariant Listed(placed[..i], blocks, lists) && Indexed(order, lists)
    {
      var a := placed[i];
      assert placed[..i + 1] == placed[..i] + [a];
      ListedStep(placed[..i], a, blocks, lists);
      if a.soldier !in lists {
        order := order + [a.soldier];
      }
      lists := lists[a.soldier := (if a.soldier in lists then lists[a.soldier] else []) + [blocks[a.duty]]];
    }
    assert placed[..|placed|] == placed;
    own := SortLists(order, lists);
    SortedAll(placed, blocks, order, lists, own);
  }

  method SortLists(order: seq<Id>, lists: map<Id, seq<Block>>) returns (own: map<Id, seq<Block>>)
    requires Indexed(order, lists)
    ensures SortedSome(order, lists, own)
  {
    own := map[];
    for i := 0 to |order|
      invariant SortedSome(order[..i], lists, own)
    {
      assert order[i] in order && order[..i + 1] == order[..i] + [order[i]];
      own := own[order[i] := SortByStart(lists[order[i]])];
    }
    assert order[..|order|] == order;
  }

  /** The keys of the lists. */
  ghost predicate Indexed(order: seq<Id>, lists: map<Id, seq<Block>>) {
    forall s :: s in order <==> s in lists
  }

  ghost predicate SortedSome(order: seq<Id>, lists: map<Id, seq<Block>>, own: map<Id, seq<Block>>) {
    && (forall s :: s in own <==> s in order)
    && (forall s | s in own :: s in lists && own[s] == SortByStart(lists[s]))
  }

  ghost predicate Prepared(placed: seq<Placed>, blocks: map<Id, Block>, own: map<Id, seq<Block>>) {
    && Known(placed, blocks)
    && forall s: Id :: SortByStart(OwnDuties(placed, blocks, s)) == if s in own then own[s] else []
  }

  lemma SortedAll(placed: seq<Placed>, blocks: map<Id, Block>, order: seq<Id>, lists: map<Id, seq<Block>>,
                  own: map<Id, seq<Block>>)
    requires Listed(placed, blocks, lists) && Indexed(order, lists) && SortedSome(order, lists, own)
    ensures Prepared(placed, blocks, own)
  {
  }

  ghost predicate Listed(placed: seq<Placed>, blocks: map<Id, Block>, lists: map<Id, seq<Block>>) {
    && Known(placed, blocks)
    && forall s: Id :: OwnDuties(placed, blocks, s) == if s in lists then lists[s] else []
  }

  lemma ListedStep(placed: seq<Placed>, a: Placed, blocks: map<Id, Block>, lists: map<Id, seq<Block>>)
    requires Listed(placed, blocks, lists) && a.duty in blocks
    ensures Listed(placed + [a], blocks,
                   lists[a.soldier := (if a.soldier in lists then lists[a.soldier] else []) + [blocks[a.duty]]])
  {
    assert (placed + [a])[..|placed|] == placed;
  }

  /** One candidate soldier against one duty: scan the window for another duty than this one. */
  method OverlapMark(own: seq<Block>, q: Block) returns (blocked: bool)
    ensures blocked <==> exists d :: d in Window(own, q) && d.id != q.id
  {
    var window := Window(own, q);
    blocked := false;
    for i := 0 to |window|
      invariant !blocked && forall j | 0 <= j < i :: window[j].id == q.id
    {
      if window[i].id != q.id {
        return true;
      }
    }
  }

  /**
   The overlap marks of all soldiers for one assigned duty: a soldier whose own duties are tidy is
   marked exactly when he holds some other duty that shares a day with this one.
   */
  method OverlapMarks(soldiers: seq<Id>, placed: seq<Placed>, blocks: map<Id, Block>, q: Block)
    returns (marks: seq<bool>)
    requires Known(placed, blocks)
    ensures |marks| == |soldiers| && RightMarks(placed, blocks, q, soldiers, marks)
  {
    var own := SoldierDuties(placed, blocks);
    marks := [];
    for i := 0 to |soldiers|
      invariant |marks| == i && RightMarks(placed, blocks, q, soldiers, marks)
    {
      var mark := SoldierMark(soldiers[i], own, q, placed, blocks);
      RightMarksStep(placed, blocks, q, soldiers, marks, mark);
      marks := marks + [mark];
    }
  }

  ghost predicate RightMarks(placed: seq<Placed>, blocks: map<Id, Block>, q: Block, soldiers: seq<Id>, marks: seq<bool>)
    requires Known(placed, blocks)
  {
    |marks| <= |soldiers| && forall i | 0 <= i < |marks| :: RightMark(placed, blocks, q, soldiers[i], marks[i])
  }

  lemma RightMarksStep(placed: seq<Placed>, blocks: map<Id, Block>, q: Block, soldiers: seq<Id>, marks: seq<bool>,
                       mark: bool)
    requires Known(placed, blocks) && |marks| < |soldiers|
    requires RightMarks(placed, blocks, q, soldiers, marks) && RightMark(placed, blocks, q, soldiers[|marks|], mark)
    ensures RightMarks(placed, blocks, q, soldiers, marks + [mark])
  {
    var after := marks + [mark];
    forall i | 0 <= i < |after| ensures RightMark(placed, blocks, q, soldiers[i], after[i]) {
      if i < |marks| {
        assert after[i] == marks[i];
      }
    }
  }

  method SoldierMark(s: Id, own: map<Id, seq<Block>>, q: Block, ghost placed: seq<Placed>, ghost blocks: map<Id, Block>)
    returns (mark: bool)
    requires Prepared(placed, blocks, own)
    ensures RightMark(placed, blocks, q, s, mark)
  {
    mark := false;
    if s in own {
      mark := OverlapMark(own[s], q);
    }
    if Tidy(OwnDuties(placed, blocks, s)) {
      MarkMeans(placed, blocks, q, s, if s in own then own[s] else []);
    }
  }

  /** For a soldier whose own duties are tidy, the mark means that he holds another overlapping duty. */
  ghost predicate RightMark(placed: seq<Placed>, blocks: map<Id, Block>, q: Block, soldier: Id, mark: bool)
    requires Known(placed, blocks)
  {
    Tidy(OwnDuties(placed, blocks, soldier)) ==> (mark <==> HoldsOther(placed, blocks, q, soldier))
  }

  /** This soldier holds a duty, other than the given one, that shares a day with it. */
  ghost predicate HeldElsewhere(placed: seq<Placed>, blocks: map<Id, Block>, q: Block, soldier: Id, a: Placed) {
    a in placed && a.soldier == soldier && a.duty in blocks && blocks[a.duty].id != q.id && Overlaps(blocks[a.duty], q)
  }

  ghost predicate HoldsOther(placed: seq<Placed>, blocks: map<Id, Block>, q: Block, soldier: Id) {
    exists a :: HeldElsewhere(placed, blocks, q, soldier, a)
  }

  lemma MarkMeans(placed: seq<Placed>, blocks: map<Id, Block>, q: Block, s: Id, own: seq<Block>)
    requires Known(placed, blocks) && Tidy(OwnDuties(placed, blocks, s))
    requires own == SortByStart(OwnDuties(placed, blocks, s))
    ensures (exists d :: d in Window(own, q) && d.id != q.id) <==> HoldsOther(placed, blocks, q, s)
  {
    TidySort(OwnDuties(placed, blocks, s));
    TidyEndsAscend(own);
    if d :| d in Window(own, q) && d.id != q.id {
      WindowIsOverlap(own, q, d);
      OwnDutiesMembers(placed, blocks, s, d);
      var i :| 0 <= i < |placed| && placed[i].soldier == s && blocks[placed[i].duty] == d;
      assert HeldElsewhere(placed, blocks, q, s, placed[i]);
    }
    if a :| HeldElsewhere(placed, blocks, q, s, a) {
      WindowIsOverlap(own, q, blocks[a.duty]);
      OwnDutiesMembers(placed, blocks, s, blocks[a.duty]);
      assert blocks[a.duty] in OwnDuties(placed, blocks, s);
      assert blocks[a.duty] in Window(own, q);
    }
  }
}
