/** Greedy calendar windows: as few batches of bounded span as the start dates allow. */
module Calendar {
  import opened Domain

  function Flatten(batches: seq<seq<nat>>): seq<nat> {
    if batches == [] then [] else Flatten(batches[..|batches| - 1]) + batches[|batches| - 1]
  }

  ghost predicate InRange(idxs: seq<nat>, duties: seq<Duty>) {
    forall i | 0 <= i < |idxs| :: idxs[i] < |duties|
  }

  ghost predicate StartSorted(idxs: seq<nat>, duties: seq<Duty>)
    requires InRange(idxs, duties)
  {
    forall i, j | 0 <= i < j < |idxs| :: duties[idxs[i]].start <= duties[idxs[j]].start
  }

  /** The batch starts with its earliest duty and spans fewer than width start days. */
  ghost predicate Window(batch: seq<nat>, duties: seq<Duty>, width: nat) {
    && batch != [] && InRange(batch, duties)
    && forall i | 0 <= i < |batch| :: 0 <= duties[batch[i]].start - duties[batch[0]].start < width
  }

  function FirstStart(batch: seq<nat>, duties: seq<Duty>): int {
    if batch != [] && batch[0] < |duties| then duties[batch[0]].start else 0
  }

  /** Later batches open at least width days after earlier ones. */
  ghost predicate Apart(batches: seq<seq<nat>>, duties: seq<Duty>, width: nat) {
    forall j, k | 0 <= j < k < |batches| :: FirstStart(batches[k], duties) - FirstStart(batches[j], duties) >= width
  }

  ghost predicate Windows(batches: seq<seq<nat>>, duties: seq<Duty>, width: nat) {
    forall k | 0 <= k < |batches| :: Window(batches[k], duties, width)
  }

  /** A way of putting the duties into m groups so that no group spans width start days. */
  ghost predicate IsGrouping(idxs: seq<nat>, duties: seq<Duty>, width: nat, group: nat -> nat, m: nat)
    requires InRange(idxs, duties)
  {
    && (forall i | 0 <= i < |idxs| :: group(idxs[i]) < m)
    && (forall i, j | 0 <= i < |idxs| && 0 <= j < |idxs| && group(idxs[i]) == group(idxs[j]) ::
          duties[idxs[j]].start - duties[idxs[i]].start < width)
  }

  lemma {:induction false} FirstsAreListed(batches: seq<seq<nat>>, k: nat)
    requires k < |batches| && batches[k] != []
    ensures exists i :: 0 <= i < |Flatten(batches)| && Flatten(batches)[i] == batches[k][0]
  {
    var last := |batches| - 1;
    if k < last {
      FirstsAreListed(batches[..last], k);
      var i :| 0 <= i < |Flatten(batches[..last])| && Flatten(batches[..last])[i] == batches[k][0];
      assert Flatten(batches)[i] == batches[k][0];
    } else {
      assert Flatten(batches)[|Flatten(batches[..last])|] == batches[k][0];
    }
  }

  /** Different values below m: there are at most m of them. */
  lemma {:induction false} Pigeonhole(s: seq<nat>, m: nat)
    requires forall i | 0 <= i < |s| :: s[i] < m
    requires forall i, j | 0 <= i < j < |s| :: s[i] != s[j]
    ensures |s| <= m
    decreases m
  {
    if s != [] {
      assert s[0] < m;
    }
    if m == 0 {
    } else if k: nat :| k < |s| && s[k] == m - 1 {
      var t := s[..k] + s[k + 1..];
      forall i | 0 <= i < |t| ensures t[i] < m - 1 {
        assert t[i] == if i < k then s[i] else s[i + 1];
        assert i < k ==> s[i] != s[k];
        assert i >= k ==> s[k] != s[i + 1];
      }
      Pigeonhole(t, m - 1);
    } else {
      Pigeonhole(s, m - 1);
    }
  }

  /** No grouping of the same duties gets by with fewer groups. */
  lemma GreedyIsMinimal(idxs: seq<nat>, duties: seq<Duty>, width: nat, batches: seq<seq<nat>>, group: nat -> nat,
                        m: nat)
    requires InRange(idxs, duties) && Flatten(batches) == idxs
    requires Windows(batches, duties, width)
    requires Apart(batches, duties, width)
    requires IsGrouping(idxs, duties, width, group, m)
    ensures |batches| <= m
  {
    var s := seq(|batches|, k requires 0 <= k < |batches| => if batches[k] == [] then 0 else group(batches[k][0]));
    forall k | 0 <= k < |s| ensures s[k] < m && s[k] == group(batches[k][0]) {
      assert Window(batches[k], duties, width);
      FirstsAreListed(batches, k);
    }
    forall j, k | 0 <= j < k < |s| ensures s[j] != s[k] {
      assert Window(batches[j], duties, width) && Window(batches[k], duties, width);
      FirstsAreListed(batches, j);
      FirstsAreListed(batches, k);
    }
    Pigeonhole(s, m);
  }

  /** The batches closed so far, the open one, and the duties placed. */
  ghost predicate Greedy(batches: seq<seq<nat>>, cur: seq<nat>, windowStart: int, done: seq<nat>, duties: seq<Duty>,
                         width: nat)
  {
    && Flatten(batches) + cur == done
    && Windows(batches, duties, width) && Apart(batches, duties, width)
    && (if done == [] then batches == [] && cur == []
        else Window(cur, duties, width) && FirstStart(cur, duties) == windowStart)
    && (forall k | 0 <= k < |batches| :: windowStart - FirstStart(batches[k], duties) >= width)
  }

  lemma FlattenAppend(batches: seq<seq<nat>>, b: seq<nat>)
    ensures Flatten(batches + [b]) == Flatten(batches) + b
  {
    assert (batches + [b])[..|batches|] == batches;
  }

  lemma StayInWindow(batches: seq<seq<nat>>, cur: seq<nat>, windowStart: int, done: seq<nat>, di: nat,
                     duties: seq<Duty>, width: nat)
    requires Greedy(batches, cur, windowStart, done, duties, width)
    requires di < |duties| && 0 <= duties[di].start - windowStart < width
    requires done == [] ==> duties[di].start == windowStart
    ensures Greedy(batches, cur + [di], windowStart, done + [di], duties, width)
  {
  }

  lemma CloseWindow(batches: seq<seq<nat>>, cur: seq<nat>, windowStart: int, done: seq<nat>, duties: seq<Duty>,
                    width: nat)
    requires Greedy(batches, cur, windowStart, done, duties, width) && done != []
    ensures Flatten(batches + [cur]) == done
    ensures Windows(batches + [cur], duties, width) && Apart(batches + [cur], duties, width)
  {
    FlattenAppend(batches, cur);
  }

  lemma OpenWindow(batches: seq<seq<nat>>, cur: seq<nat>, windowStart: int, done: seq<nat>, di: nat, duties: seq<Duty>,
                   width: nat)
    requires width > 0 && Greedy(batches, cur, windowStart, done, duties, width) && done != []
    requires di < |duties| && duties[di].start - windowStart >= width
    ensures Greedy(batches + [cur], [di], duties[di].start, done + [di], duties, width)
  {
    CloseWindow(batches, cur, windowStart, done, duties, width);
  }

  /** One duty: into the open window, or into a new one anchored at its start. */
  method Place(batches: seq<seq<nat>>, cur: seq<nat>, windowStart: int, ghost done: seq<nat>, di: nat,
               duties: seq<Duty>, width: nat)
    returns (batches': seq<seq<nat>>, cur': seq<nat>, windowStart': int)
    requires width > 0 && Greedy(batches, cur, windowStart, done, duties, width)
    requires di < |duties| && windowStart <= duties[di].start
    requires done == [] ==> duties[di].start == windowStart
    ensures Greedy(batches', cur', windowStart', done + [di], duties, width)
    ensures windowStart' <= duties[di].start
  {
    batches', cur', windowStart' := batches, cur, windowStart;
    if duties[di].start - windowStart >= width {
      OpenWindow(batches, cur, windowStart, done, di, duties, width);
      if cur != [] {
        batches' := batches + [cur];
      }
      windowStart' := duties[di].start;
      cur' := [];
    } else {
      StayInWindow(batches, cur, windowStart, done, di, duties, width);
    }
    cur' := cur' + [di];
  }

  /** No grouping with the same bound on spans has fewer groups. */
  ghost predicate Minimal(batches: seq<seq<nat>>, idxs: seq<nat>, duties: seq<Duty>, width: nat)
    requires InRange(idxs, duties)
  {
    forall group: nat -> nat, m: nat | IsGrouping(idxs, duties, width, group, m) :: |batches| <= m
  }

  lemma NextStart(idxs: seq<nat>, duties: seq<Duty>, i: nat)
    requires InRange(idxs, duties) && StartSorted(idxs, duties) && i < |idxs| - 1
    ensures duties[idxs[i]].start <= duties[idxs[i + 1]].start
  {
  }

  method Sweep(idxs: seq<nat>, duties: seq<Duty>, width: nat)
    returns (batches: seq<seq<nat>>, cur: seq<nat>, ghost windowStart: int)
    requires width > 0 && InRange(idxs, duties) && StartSorted(idxs, duties) && idxs != []
    ensures Greedy(batches, cur, windowStart, idxs, duties, width)
  {
    batches, cur := [], [];
    var anchor := duties[idxs[0]].start;
    var i: nat := 0;
    while i < |idxs|
      invariant i <= |idxs|
      invariant Greedy(batches, cur, anchor, idxs[..i], duties, width)
      invariant i == 0 ==> anchor == duties[idxs[0]].start
      invariant i < |idxs| ==> anchor <= duties[idxs[i]].start
    {
      assert idxs[..i + 1] == idxs[..i] + [idxs[i]];
      if i + 1 < |idxs| {
        NextStart(idxs, duties, i);
      }
      batches, cur, anchor := Place(batches, cur, anchor, idxs[..i], idxs[i], duties, width);
      i := i + 1;
    }
    assert idxs[..i] == idxs;
    windowStart := anchor;
  }

  lemma GreedyMinimal(idxs: seq<nat>, duties: seq<Duty>, width: nat, batches: seq<seq<nat>>)
    requires InRange(idxs, duties) && Flatten(batches) == idxs
    requires Windows(batches, duties, width) && Apart(batches, duties, width)
    ensures Minimal(batches, idxs, duties, width)
  {
    forall group: nat -> nat, m: nat | IsGrouping(idxs, duties, width, group, m) ensures |batches| <= m {
      GreedyIsMinimal(idxs, duties, width, batches, group, m);
    }
  }

  method CalendarWindowBatches(idxs: seq<nat>, duties: seq<Duty>, width: nat) returns (batches: seq<seq<nat>>)
    requires width > 0 && InRange(idxs, duties) && StartSorted(idxs, duties)
    ensures Flatten(batches) == idxs
    ensures Windows(batches, duties, width)
    ensures Minimal(batches, idxs, duties, width)
  {
    if idxs == [] {
      batches := [];
      return;
    }
    var cur; ghost var windowStart;
    batches, cur, windowStart := Sweep(idxs, duties, width);
    CloseWindow(batches, cur, windowStart, idxs, duties, width);
    if cur != [] {
      batches := batches + [cur];
    }
    GreedyMinimal(idxs, duties, width, batches);
  }
}
