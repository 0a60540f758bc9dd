/**
 The plain data that the assignment engine works on. A calendar date is a day number, a
 wall-clock time is a minute of the day, an instant is a minute number, an identifier is
 a natural number whose order stands for the order of the identifiers' text.
 */
module Domain {

  type Id = nat

  const MINUTES_PER_DAY := 1440

  datatype Duty = Duty(
    id: Id,
    dutyType: Id,
    start: int,
    end: int,              // exclusive
    startTime: int,
    endTime: int,          // clock time on the day before end
    scorePerDay: real,
    isReserve: bool,
    nodeQuotas: seq<(Id, int)>,
    restHours: int)

  datatype Soldier = Soldier(id: Id, path: set<Id>, effortOffset: int, effortPerMilli: int)

  datatype RestEnd = NoRestEnd | RestEnd(day: int, time: int)

  datatype Existing = Existing(
    soldier: Id,
    start: int,
    end: int,
    isReserve: bool,
    restHours: int,
    restEnd: RestEnd)

  datatype Assignment = Assignment(duty: Id, soldier: Id)

  /** The density caps: at most T real duty days in any Wt days, at most R duty days in any Wr. */
  datatype Caps = Caps(T: int, Wt: nat, R: int, Wr: nat)

  /** A wall-clock time is a minute of a day. */
  ghost predicate ClockTime(t: int) {
    0 <= t < MINUTES_PER_DAY
  }

  // ----- calendar -----

  /** The dates of [start, end). */
  function Days(start: int, end: int): (r: set<int>)
    ensures forall t :: t in r <==> start <= t < end
    ensures |r| == if start < end then end - start else 0
    decreases end - start
  {
    if start >= end then {} else {start} + Days(start + 1, end)
  }

  function DutyDays(d: Duty): set<int> {
    Days(d.start, d.end)
  }

  // ----- scores -----

  function CeilDiv(a: int, b: int): int
    requires b > 0
  {
    -((-a) / b)
  }

  /** Wall-clock length of a duty in whole days, rounded up, at least one. */
  function ScoreDays(start: int, end: int, startTime: int, endTime: int): int {
    var elapsed := (end - start - 1) * MINUTES_PER_DAY + (endTime - startTime);
    var days := CeilDiv(elapsed, MINUTES_PER_DAY);
    if days < 1 then 1 else days
  }

  /**
   A duty scores every calendar day it touches, less one when it touches several and ends by its
   starting hour; one that touches none scores one day.
   */
  lemma ScoreDaysMeaning(start: int, end: int, startTime: int, endTime: int)
    requires ClockTime(startTime) && ClockTime(endTime)
    ensures ScoreDays(start, end, startTime, endTime) ==
            if end - start <= 1 then 1 else if startTime < endTime then end - start else end - start - 1
  {
    var n, m := end - start, endTime - startTime;
    assert -((n - 1) * 1440 + m) == (1 - n) * 1440 - m;
    if m > 0 {
      assert ((1 - n) * 1440 - m) / 1440 == -n;
    } else {
      assert ((1 - n) * 1440 - m) / 1440 == 1 - n;
    }
  }

  /** Decimal to integer, dropping the fraction. */
  function Truncate(r: real): int {
    if r >= 0.0 then r.Floor else -((-r).Floor)
  }

  /** The score of a whole block in thousandths. */
  function BlockScore(d: Duty): int {
    Truncate(d.scorePerDay * (ScoreDays(d.start, d.end, d.startTime, d.endTime) as real) * 1000.0)
  }

  /** The score is the daily score times these days in thousandths, its fraction dropped towards zero. */
  lemma BlockScoreMeaning(d: Duty, days: int, exact: real)
    requires ClockTime(d.startTime) && ClockTime(d.endTime)
    requires days == if d.end - d.start <= 1 then 1
                     else if d.startTime < d.endTime then d.end - d.start else d.end - d.start - 1
    requires exact == d.scorePerDay * (days as real) * 1000.0
    ensures d.scorePerDay >= 0.0 ==> BlockScore(d) as real <= exact < (BlockScore(d) + 1) as real
    ensures d.scorePerDay <= 0.0 ==> (BlockScore(d) - 1) as real < exact <= BlockScore(d) as real
  {
    ScoreDaysMeaning(d.start, d.end, d.startTime, d.endTime);
    assert BlockScore(d) == Truncate(exact);
    SignOfProduct(d.scorePerDay, days as real);
    TruncateMeaning(exact);
  }

  lemma TruncateMeaning(r: real)
    ensures r >= 0.0 ==> Truncate(r) as real <= r < (Truncate(r) + 1) as real
    ensures r <= 0.0 ==> (Truncate(r) - 1) as real < r <= Truncate(r) as real
  {
    assert r.Floor as real <= r < (r.Floor + 1) as real;
    assert (-r).Floor as real <= -r < ((-r).Floor + 1) as real;
  }

  lemma SignOfProduct(score: real, days: real)
    requires days > 0.0
    ensures score >= 0.0 ==> score * days * 1000.0 >= 0.0
    ensures score <= 0.0 ==> score * days * 1000.0 <= 0.0
  {
    var x := score * days;
    assert score >= 0.0 ==> x >= 0.0;
    assert score <= 0.0 ==> x <= 0.0;
  }

  // ----- rest -----

  function Instant(day: int, time: int): int {
    day * MINUTES_PER_DAY + time
  }

  function LastDutyDay(start: int, end: int): int {
    if end > start then end - 1 else end
  }

  function RestViolated(priorEnd: int, nextStart: int, nextTime: int, restHours: int): bool {
    restHours > 0 && Instant(nextStart, nextTime) < priorEnd + restHours * 60
  }

  function DutyEnd(d: Duty): int {
    Instant(LastDutyDay(d.start, d.end), d.endTime)
  }
}
