/**
 * Points in time as the server's `Date` objects hold them in local time:
 * a calendar date and the milliseconds into that day. Time zones and
 * daylight-saving shifts are not modelled.
 */
module Calendar {

  type Month = m: int | 1 <= m <= 12 witness 1
  type Day = d: int | 1 <= d <= 31 witness 1

  const MillisPerDay: int := 86400000
  type DayMillis = ms: int | 0 <= ms < 86400000

  datatype Instant = Instant(year: int, month: Month, day: Day, ms: DayMillis)

  /** Lexicographic order on (year, month, day, ms): `a` is strictly earlier than `b`. */
  predicate Earlier(a: Instant, b: Instant) {
    a.year < b.year
    || (a.year == b.year && a.month < b.month)
    || (a.year == b.year && a.month == b.month && a.day < b.day)
    || (a.year == b.year && a.month == b.month && a.day == b.day && a.ms < b.ms)
  }

  /** An integer key that orders instants as they are ordered in time (used for `orderBy`). */
  function Rank(t: Instant): int {
    ((t.year * 12 + (t.month - 1)) * 31 + (t.day - 1)) * MillisPerDay + t.ms
  }

  /** The key is faithful: comparing keys is comparing instants. */
  lemma RankOrder(a: Instant, b: Instant)
    ensures Rank(a) < Rank(b) <==> Earlier(a, b)
    ensures Rank(a) == Rank(b) <==> a == b
  {
    var da := (a.year * 12 + (a.month - 1)) * 31 + (a.day - 1);
    var db := (b.year * 12 + (b.month - 1)) * 31 + (b.day - 1);
    assert Rank(a) == da * MillisPerDay + a.ms;
    assert Rank(b) == db * MillisPerDay + b.ms;
    var ma := a.year * 12 + (a.month - 1);
    var mb := b.year * 12 + (b.month - 1);
    if da < db {
      assert (db - da) * MillisPerDay >= MillisPerDay;
    } else if da > db {
      assert (da - db) * MillisPerDay >= MillisPerDay;
    }
    if ma < mb {
      assert da < db;
    } else if ma > mb {
      assert da > db;
    }
  }

  predicate IsLeapYear(y: int) {
    (y % 4 == 0 && y % 100 != 0) || y % 400 == 0
  }

  function DaysInMonth(y: int, m: Month): (n: int)
    ensures 28 <= n <= 31
  {
    if m == 2 then (if IsLeapYear(y) then 29 else 28)
    else if m == 4 || m == 6 || m == 9 || m == 11 then 30
    else 31
  }

  /** The instant names a day that exists in the calendar. */
  predicate IsValid(t: Instant) {
    t.day <= DaysInMonth(t.year, t.month)
  }

  /**
   * `Date` arithmetic for a day-of-month past the end of its month: the
   * surplus days carry into the following month.
   */
  function Normalize(year: int, month: Month, day: Day, ms: DayMillis): (t: Instant)
    ensures IsValid(t)
    ensures day <= DaysInMonth(year, month) ==> t == Instant(year, month, day, ms)
  {
    var n := DaysInMonth(year, month);
    if day <= n then Instant(year, month, day, ms)
    else if month == 12 then Instant(year + 1, 1, day - n, ms)
    else Instant(year, month + 1, day - n, ms)
  }

  /**
   * `d.setFullYear(d.getFullYear() + 1)`: the same date and time of day one
   * calendar year later; 29 February becomes 1 March in a non-leap year.
   */
  function OneYearLater(t: Instant): (r: Instant)
    ensures IsValid(r)
    ensures Earlier(t, r)
    ensures IsValid(t) ==> r.year == t.year + 1 && r.ms == t.ms
    ensures IsValid(t) && t.day <= DaysInMonth(t.year + 1, t.month) ==>
              r.month == t.month && r.day == t.day
    ensures IsValid(t) && t.day > DaysInMonth(t.year + 1, t.month) ==>
              t.month == 2 && t.day == 29 && r.month == 3 && r.day == 1
  {
    Normalize(t.year + 1, t.month, t.day, t.ms)
  }
}
