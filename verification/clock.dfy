/**
 * Calendar arithmetic over integer millisecond timestamps, standing in for the
 * date-fns helpers the pages use (isToday, isTomorrow, isYesterday, addDays,
 * subDays, format) and for Date's end-of-day and ISO-date conversions.
 * Days are UTC days of 86 400 000 ms.
 */
module Clock {

  const DayMs: int := 86400000

  /** Index of the calendar day that holds instant t (floor division). */
  function DayOf(t: int): int {
    t / DayMs
  }

  /** Midnight that starts the day of t; also what `new Date(isoDate(t))` yields. */
  function StartOfDay(t: int): (r: int)
    ensures r <= t < r + DayMs
    ensures DayOf(r) == DayOf(t)
  {
    DayOf(t) * DayMs
  }

  /** 23:59:59.999 on the day of t: `d.setHours(23, 59, 59, 999)`. */
  function EndOfDay(t: int): (r: int)
    ensures t <= r < t + DayMs
    ensures DayOf(r) == DayOf(t)
  {
    StartOfDay(t) + DayMs - 1
  }

  function AddDays(t: int, n: int): int {
    t + n * DayMs
  }

  function SubDays(t: int, n: int): int {
    t - n * DayMs
  }

  predicate IsToday(t: int, now: int) {
    DayOf(t) == DayOf(now)
  }

  predicate IsTomorrow(t: int, now: int) {
    DayOf(t) == DayOf(now) + 1
  }

  predicate IsYesterday(t: int, now: int) {
    DayOf(t) == DayOf(now) - 1
  }

  /** Day of the week, 0 for Sunday (day 0 of the epoch was a Thursday). */
  function WeekdayOf(t: int): (r: int)
    ensures 0 <= r < 7
  {
    (DayOf(t) + 4) % 7
  }

  /** The texts `format` and the pages' fixed words produce for a date. */
  datatype DateLabel =
    | Today
    | Tomorrow
    | Yesterday
    | Weekday(index: int)   // format(d, "EEEE")
    | LongDate(day: int)    // format(d, "MMM d, yyyy")
    | ShortDate(day: int)   // format(d, "MMM d")

  /** Strictly after 23:59:59.999 today means on a later calendar day. */
  lemma AfterEndOfDay(t: int, now: int)
    ensures t > EndOfDay(now) <==> DayOf(t) > DayOf(now)
  {
    if DayOf(t) > DayOf(now) {
      assert StartOfDay(t) >= (DayOf(now) + 1) * DayMs;
    } else {
      assert StartOfDay(t) <= StartOfDay(now);
    }
  }

  /** Every instant of today lies less than a week after now. */
  lemma TodayWithinWeek(t: int, now: int)
    requires IsToday(t, now)
    ensures t <= AddDays(now, 7)
  {
    assert t < StartOfDay(t) + DayMs;
  }

  /** Tomorrow's ISO date, read back, is tomorrow's midnight: after now and tomorrow. */
  lemma TomorrowMidnight(now: int)
    ensures StartOfDay(AddDays(now, 1)) > now
    ensures IsTomorrow(StartOfDay(AddDays(now, 1)), now)
  {
    var m := AddDays(now, 1);
    assert DayOf(m) == DayOf(now) + 1 by {
      assert m == now + DayMs;
      assert (now + DayMs) / DayMs == now / DayMs + 1;
    }
  }

  /** Today's ISO date, read back, is today. */
  lemma TodayMidnight(now: int)
    ensures IsToday(StartOfDay(now), now)
  {
  }

  /** Within the six days after tomorrow, the weekday determines the date. */
  lemma {:induction false} WeekdayDeterminesDay(a: int, b: int, now: int)
    requires DayOf(now) + 2 <= DayOf(a) <= DayOf(now) + 7
    requires DayOf(now) + 2 <= DayOf(b) <= DayOf(now) + 7
    requires WeekdayOf(a) == WeekdayOf(b)
    ensures DayOf(a) == DayOf(b)
  {
    var da, db := DayOf(a) + 4, DayOf(b) + 4;
    assert da % 7 == db % 7;
    assert -6 <= da - db <= 6;
    assert (da - db) % 7 == 0 by {
      assert da == (da / 7) * 7 + da % 7;
      assert db == (db / 7) * 7 + db % 7;
      assert da - db == (da / 7 - db / 7) * 7;
    }
  }

  /** Up to a week from now, counted in instants, is at most seven days ahead. */
  lemma WithinWeekDay(t: int, now: int)
    requires t <= AddDays(now, 7)
    ensures DayOf(t) <= DayOf(now) + 7
  {
    assert AddDays(now, 7) == now + 7 * DayMs;
    assert DayOf(now + 7 * DayMs) == DayOf(now) + 7;
  }
}
