/** Calendar dates as Python's `datetime.date` sees them, and the integer
    surrogate key `YYYYMMDD` that every fact table joins on
    (`to_date_id` / `from_date_id` in app.py). */
module Dates {
  import opened Wrappers

  /** A proleptic Gregorian date; `Valid` says which triples Python accepts. */
  datatype Date = Date(year: int, month: int, day: int)

  /** `datetime.MINYEAR` and `datetime.MAXYEAR`. */
  const MinYear: int := 1
  const MaxYear: int := 9999

  /** `date.max`: adding one day to it raises OverflowError. */
  const LastDate: Date := Date(MaxYear, 12, 31)

  predicate IsLeapYear(y: int) {
    y % 4 == 0 && (y % 100 != 0 || y % 400 == 0)
  }

  function DaysInMonth(y: int, m: int): (n: int)
    requires 1 <= m <= 12
    ensures 28 <= n <= 31
    ensures n == 29 <==> m == 2 && IsLeapYear(y)
  {
    if m == 2 then (if IsLeapYear(y) then 29 else 28)
    else if m == 4 || m == 6 || m == 9 || m == 11 then 30
    else 31
  }

  predicate Valid(d: Date) {
    MinYear <= d.year <= MaxYear && 1 <= d.month <= 12 && 1 <= d.day <= DaysInMonth(d.year, d.month)
  }

  /** Strict calendar order: Python's `a < b` on dates. */
  predicate Before(a: Date, b: Date) {
    a.year < b.year
    || (a.year == b.year && (a.month < b.month || (a.month == b.month && a.day < b.day)))
  }

  /** Python's `a <= b` on dates. */
  predicate NotAfter(a: Date, b: Date) {
    a == b || Before(a, b)
  }

  lemma BeforeTransitive(a: Date, b: Date, c: Date)
    requires NotAfter(a, b) && NotAfter(b, c)
    ensures NotAfter(a, c)
  {
  }

  // ---------------------------------------------------------------------
  // The surrogate key
  // ---------------------------------------------------------------------

  /** `int(d.strftime("%Y%m%d"))`: whether or not the year is zero-padded
      by the platform's strftime, the integer is the same. */
  function ToDateId(d: Date): (id: int)
    ensures Valid(d) ==> id / 10000 == d.year && id / 100 % 100 == d.month && id % 100 == d.day
  {
    var id := d.year * 10000 + d.month * 100 + d.day;
    assert Valid(d) ==> id / 10000 == d.year && id / 100 % 100 == d.month && id % 100 == d.day by {
      if Valid(d) {
        var rest := d.month * 100 + d.day;
        assert 0 <= rest < 10000;
        assert id / 10000 == d.year && id % 10000 == rest;
        assert id / 100 == d.year * 100 + d.month;
      }
    }
    id
  }

  /** The key of a valid date is an eight-digit number exactly when its year
      has four digits; years 1..999 give shorter keys. */
  lemma DateIdRange(d: Date)
    requires Valid(d)
    ensures 10101 <= ToDateId(d) <= 99991231
    ensures d.year >= 1000 <==> 10000000 <= ToDateId(d)
  {
  }

  /** The key order is the calendar order (in both directions); the window
      filters `date_id >= week_ago_id` and `due_date_id < today_id` rely on it. */
  lemma DateIdMonotone(a: Date, b: Date)
    requires Valid(a) && Valid(b)
    ensures Before(a, b) <==> ToDateId(a) < ToDateId(b)
    ensures a == b <==> ToDateId(a) == ToDateId(b)
  {
    var ra := a.month * 100 + a.day;
    var rb := b.month * 100 + b.day;
    assert 101 <= ra <= 1231 && 101 <= rb <= 1231;
    if a.year < b.year {
      assert ToDateId(a) < ToDateId(b) by {
        assert a.year * 10000 + 10000 <= b.year * 10000;
      }
    } else if a.year > b.year {
      assert ToDateId(b) < ToDateId(a) by {
        assert b.year * 10000 + 10000 <= a.year * 10000;
      }
    }
  }

  /** The decoder the key is meant to have: split the integer into
      `YYYY`, `MM` and `DD` arithmetically and reject what is not a date. */
  function DateOfId(id: int): (r: Option<Date>)
    ensures r.Some? ==> Valid(r.value) && ToDateId(r.value) == id
  {
    if id < 0 then None
    else
      var d := Date(id / 10000, id / 100 % 100, id % 100);
      assert ToDateId(d) == id by { DivModDecompose(id); }
      if Valid(d) then Some(d) else None
  }

  lemma DivModDecompose(n: int)
    requires n >= 0
    ensures n / 10000 * 10000 + n / 100 % 100 * 100 + n % 100 == n
  {
    var q := n / 100;
    assert n == q * 100 + n % 100;
    assert q == q / 100 * 100 + q % 100;
    assert n / 10000 == q / 100;
  }

  /** Encoding then decoding gives the date back, for every valid date. */
  lemma DateOfIdRoundTrip(d: Date)
    requires Valid(d)
    ensures DateOfId(ToDateId(d)) == Some(d)
  {
    var id := ToDateId(d);
    assert id / 10000 == d.year && id / 100 % 100 == d.month && id % 100 == d.day;
  }

  // ---------------------------------------------------------------------
  // `from_date_id` as written: str(), three slices, int() and date()
  // ---------------------------------------------------------------------

  /** `str(n)` for a non-negative integer, as digit values, most significant first. */
  function DecimalDigits(n: nat): (s: seq<int>)
    ensures |s| >= 1
    ensures forall i :: 0 <= i < |s| ==> 0 <= s[i] <= 9
    decreases n
  {
    if n < 10 then [n] else DecimalDigits(n / 10) + [n % 10]
  }

  /** `int(s)` for a non-empty string of digits. */
  function DigitsValue(s: seq<int>): int {
    if s == [] then 0 else DigitsValue(s[..|s| - 1]) * 10 + s[|s| - 1]
  }

  function Pow10(k: nat): (p: nat)
    ensures p >= 1
  {
    if k == 0 then 1 else 10 * Pow10(k - 1)
  }

  /** Python's slice `s[lo:hi]` for non-negative bounds: clamped to the length. */
  function Slice(s: seq<int>, lo: nat, hi: nat): (t: seq<int>)
    ensures |t| == if hi <= lo || |s| <= lo then 0 else (if hi <= |s| then hi else |s|) - lo
  {
    var h := if hi <= |s| then hi else |s|;
    if lo >= h then [] else s[lo..h]
  }

  /** `from_date_id(date_id)`: `s = str(date_id)`, then
      `date(int(s[:4]), int(s[4:6]), int(s[6:8]))`. `None` stands for the
      ValueError raised by `int('')` (fewer than seven characters), by a
      negative year or by `date()` on a non-date. A negative id always
      raises: its year slice is non-positive or its later slices are empty. */
  function FromDateId(id: int): (r: Option<Date>)
    ensures r.Some? ==> Valid(r.value)
  {
    if id < 0 then None
    else
      var s := DecimalDigits(id);
      if |s| < 7 then None
      else
        var d := Date(DigitsValue(s[..4]), DigitsValue(Slice(s, 4, 6)), DigitsValue(Slice(s, 6, 8)));
        if Valid(d) then Some(d) else None
  }

  lemma {:induction false} DigitsValueAppend(a: seq<int>, b: seq<int>)
    ensures DigitsValue(a + b) == DigitsValue(a) * Pow10(|b|) + DigitsValue(b)
    decreases |b|
  {
    if b == [] {
      assert a + b == a;
    } else {
      var b' := b[..|b| - 1];
      assert (a + b)[..|a + b| - 1] == a + b';
      DigitsValueAppend(a, b');
    }
  }

  lemma {:induction false} DigitsValueBound(s: seq<int>)
    requires forall i :: 0 <= i < |s| ==> 0 <= s[i] <= 9
    ensures 0 <= DigitsValue(s) < Pow10(|s|)
  {
    if s != [] {
      DigitsValueBound(s[..|s| - 1]);
    }
  }

  lemma {:induction false} DecimalDigitsValue(n: nat)
    ensures DigitsValue(DecimalDigits(n)) == n
    decreases n
  {
    if n >= 10 {
      var s := DecimalDigits(n);
      assert s[..|s| - 1] == DecimalDigits(n / 10);
      DecimalDigitsValue(n / 10);
    }
  }

  lemma {:induction false} DecimalDigitsLength(n: nat, k: nat)
    requires 1 <= k && Pow10(k - 1) <= n < Pow10(k)
    ensures |DecimalDigits(n)| == k
    decreases n
  {
    if n >= 10 {
      DecimalDigitsLength(n / 10, k - 1);
    }
  }

  /** Base-100 digits are unique: how the year, month and day are recovered. */
  lemma SplitUnique(y1: int, m1: int, d1: int, y2: int, m2: int, d2: int)
    requires 0 <= m1 < 100 && 0 <= d1 < 100 && 0 <= m2 < 100 && 0 <= d2 < 100
    requires y1 * 10000 + m1 * 100 + d1 == y2 * 10000 + m2 * 100 + d2
    ensures y1 == y2 && m1 == m2 && d1 == d2
  {
    var n := y1 * 10000 + m1 * 100 + d1;
    assert n / 100 == y1 * 100 + m1 && n % 100 == d1;
    assert n / 100 == y2 * 100 + m2 && n % 100 == d2;
    var q := n / 100;
    assert q / 100 == y1 && q % 100 == m1;
    assert q / 100 == y2 && q % 100 == m2;
  }

  /** The written decoder inverts the key for dates whose year has four
      digits: then `str()` has exactly eight characters. */
  lemma FromDateIdRoundTrip(d: Date)
    requires Valid(d) && d.year >= 1000
    ensures FromDateId(ToDateId(d)) == Some(d)
  {
    DateIdRange(d);
    FromDateIdEightDigits(ToDateId(d));
    DateOfIdRoundTrip(d);
  }

  /** On eight-digit ids the three slices are exactly the integer's `YYYY`,
      `MM` and `DD` fields. */
  lemma EightDigitFields(id: int)
    requires 10000000 <= id < 100000000
    ensures |DecimalDigits(id)| == 8
    ensures DigitsValue(DecimalDigits(id)[..4]) == id / 10000
    ensures DigitsValue(Slice(DecimalDigits(id), 4, 6)) == id / 100 % 100
    ensures DigitsValue(Slice(DecimalDigits(id), 6, 8)) == id % 100
  {
    assert Pow10(7) == 10000000 && Pow10(8) == 100000000;
    DecimalDigitsLength(id, 8);
    var s := DecimalDigits(id);
    var ys, ms, ds := s[..4], s[4..6], s[6..8];
    assert Slice(s, 4, 6) == ms && Slice(s, 6, 8) == ds;
    assert s == ys + ms + ds;
    DigitsValueAppend(ys, ms);
    DigitsValueAppend(ys + ms, ds);
    DecimalDigitsValue(id);
    assert Pow10(2) == 100;
    DigitsValueBound(ms);
    DigitsValueBound(ds);
    DivModDecompose(id);
    SplitUnique(DigitsValue(ys), DigitsValue(ms), DigitsValue(ds), id / 10000, id / 100 % 100, id % 100);
  }

  /** On an eight-digit id the written decoder is the arithmetic one: it
      returns the date whose key the id is, and raises when the id is no
      date's key. */
  lemma FromDateIdEightDigits(id: int)
    requires 10000000 <= id < 100000000
    ensures FromDateId(id) == DateOfId(id)
    ensures FromDateId(id).Some? <==> exists d :: Valid(d) && ToDateId(d) == id
  {
    EightDigitFields(id);
    if d :| Valid(d) && ToDateId(d) == id {
      DateOfIdRoundTrip(d);
    }
  }

  /** An eight-digit id whose `MM` field is 13, such as 20241301, is no
      date's key: `date()` raises. */
  lemma FromDateIdRejectsMonth13(y: int, day: int)
    requires 1000 <= y <= 9999 && 0 <= day < 100
    ensures FromDateId(y * 10000 + 1300 + day).None?
  {
    var id := y * 10000 + 1300 + day;
    FromDateIdEightDigits(id);
    assert id / 100 == y * 100 + 13;
    assert id / 100 % 100 == 13;
  }

  /** Below year 1000 the key has seven digits and the written decoder
      reads a different date: 0999-01-01 comes back as 9990-10-01. */
  lemma FromDateIdShortYear()
    ensures ToDateId(Date(999, 1, 1)) == 9990101
    ensures Valid(Date(999, 1, 1))
    ensures FromDateId(ToDateId(Date(999, 1, 1))) == Some(Date(9990, 10, 1))
  {
    var s := DecimalDigits(9990101);
    ShortKeyDigits();
    assert s[..4] == [9, 9, 9, 0] && Slice(s, 4, 6) == [1, 0] && Slice(s, 6, 8) == [1];
    ShortKeyFields();
  }

  lemma ShortKeyFields()
    ensures DigitsValue([9, 9, 9, 0]) == 9990
    ensures DigitsValue([1, 0]) == 10
    ensures DigitsValue([1]) == 1
  {
    assert [9, 9, 9, 0][..3] == [9, 9, 9];
    assert [9, 9, 9][..2] == [9, 9];
    assert [9, 9][..1] == [9];
    assert [9][..0] == [];
    assert [1, 0][..1] == [1];
    assert [1][..0] == [];
  }

  lemma ShortKeyDigits()
    ensures DecimalDigits(9990101) == [9, 9, 9, 0, 1, 0, 1]
  {
    assert DecimalDigits(9) == [9];
    assert DecimalDigits(99) == DecimalDigits(9) + [9];
    assert DecimalDigits(999) == DecimalDigits(99) + [9];
    assert DecimalDigits(9990) == DecimalDigits(999) + [0];
    assert DecimalDigits(99901) == DecimalDigits(9990) + [1];
    assert DecimalDigits(999010) == DecimalDigits(99901) + [0];
    assert DecimalDigits(9990101) == DecimalDigits(999010) + [1];
  }

  /** The written decoder ignores everything after the eighth character, so
      a nine-digit id such as 202401011 is read as 2024-01-01. */
  lemma FromDateIdIgnoresExtraDigits()
    ensures FromDateId(202401011) == Some(Date(2024, 1, 1))
  {
    var s := DecimalDigits(202401011);
    LongKeyDigits();
    assert s[..4] == [2, 0, 2, 4] && Slice(s, 4, 6) == [0, 1] && Slice(s, 6, 8) == [0, 1];
    LongKeyFields();
  }

  lemma LongKeyFields()
    ensures DigitsValue([2, 0, 2, 4]) == 2024
    ensures DigitsValue([0, 1]) == 1
  {
    assert [2, 0, 2, 4][..3] == [2, 0, 2];
    assert [2, 0, 2][..2] == [2, 0];
    assert [2, 0][..1] == [2];
    assert [2][..0] == [];
    assert [0, 1][..1] == [0];
    assert [0][..0] == [];
  }

  lemma LongKeyDigits()
    ensures DecimalDigits(202401011) == [2, 0, 2, 4, 0, 1, 0, 1, 1]
  {
    assert DecimalDigits(2) == [2];
    assert DecimalDigits(20) == DecimalDigits(2) + [0];
    assert DecimalDigits(202) == DecimalDigits(20) + [2];
    assert DecimalDigits(2024) == DecimalDigits(202) + [4];
    assert DecimalDigits(20240) == DecimalDigits(2024) + [0];
    assert DecimalDigits(202401) == DecimalDigits(20240) + [1];
    assert DecimalDigits(2024010) == DecimalDigits(202401) + [0];
    assert DecimalDigits(20240101) == DecimalDigits(2024010) + [1];
    assert DecimalDigits(202401011) == DecimalDigits(20240101) + [1];
  }

  // ---------------------------------------------------------------------
  // `d += timedelta(days=1)`
  // ---------------------------------------------------------------------

  /** The next calendar day; `None` is the OverflowError past `date.max`. */
  function NextDay(d: Date): (r: Option<Date>)
    requires Valid(d)
    ensures r.None? <==> d == LastDate
    ensures r.Some? ==> Valid(r.value) && Before(d, r.value)
  {
    if d.day < DaysInMonth(d.year, d.month) then Some(Date(d.year, d.month, d.day + 1))
    else if d.month < 12 then Some(Date(d.year, d.month + 1, 1))
    else if d.year < MaxYear then Some(Date(d.year + 1, 1, 1))
    else None
  }

  /** No valid date lies strictly between a day and the next one. */
  lemma NextDayImmediate(d: Date, e: Date)
    requires Valid(d) && Valid(e) && Before(d, e) && NextDay(d).Some?
    ensures NotAfter(NextDay(d).value, e)
  {
  }

  // ---------------------------------------------------------------------
  // Derived calendar attributes stored in the date dimension
  // ---------------------------------------------------------------------

  /** `(month-1)//3+1`: the calendar quarter holding the month. */
  function Quarter(m: int): (q: int)
    requires 1 <= m <= 12
    ensures 1 <= q <= 4
    ensures 3 * (q - 1) < m <= 3 * q
  {
    (m - 1) / 3 + 1
  }

  /** Days in the years before `y`, with floor division as in Python's
      `_days_before_year` (the year-0 case is never reached by `IsoWeek`,
      since 0001-01-01 is a Monday). */
  function DaysBeforeYear(y: int): int {
    var y1 := y - 1;
    y1 * 365 + y1 / 4 - y1 / 100 + y1 / 400
  }

  function DaysBeforeMonth(y: int, m: int): (n: int)
    requires 1 <= m <= 12
    ensures 0 <= n <= 31 * (m - 1)
  {
    if m == 1 then 0 else DaysBeforeMonth(y, m - 1) + DaysInMonth(y, m - 1)
  }

  /** `date.toordinal()`: 0001-01-01 is day 1, a Monday. */
  function Ordinal(d: Date): int
    requires Valid(d)
  {
    DaysBeforeYear(d.year) + DaysBeforeMonth(d.year, d.month) + d.day
  }

  /** `_isoweek1monday(year)`: the ordinal of the Monday of ISO week 1. */
  function IsoWeek1Monday(y: int): int {
    var firstDay := DaysBeforeYear(y) + 1;
    var firstWeekday := (firstDay + 6) % 7;
    var monday := firstDay - firstWeekday;
    if firstWeekday > 3 then monday + 7 else monday
  }

  /** `d.isocalendar()[1]`, following `date.isocalendar`: weeks counted from
      the week-1 Monday, falling back to the previous ISO year or forward
      to week 1 of the next one at the year's edges. */
  function IsoWeek(d: Date): (w: int)
    requires Valid(d)
    ensures 1 <= w <= 53
  {
    IsoWeekFacts(d.year);
    IsoWeekFacts(d.year - 1);
    WeekNumber(Ordinal(d), IsoWeek1Monday(d.year - 1), IsoWeek1Monday(d.year), IsoWeek1Monday(d.year + 1))
  }

  /** The week arithmetic of `isocalendar` on a day's ordinal and the
      week-1 Mondays of the previous, the current and the next year. */
  function WeekNumber(today: int, previousMonday: int, monday: int, nextMonday: int): int {
    var week := (today - monday) / 7;
    if week < 0 then (today - previousMonday) / 7 + 1
    else if week >= 52 && today >= nextMonday then 1
    else week + 1
  }

  lemma WeekNumberCases(today: int, previousMonday: int, monday: int, nextMonday: int)
    requires nextMonday - monday >= 364
    ensures today < monday ==> WeekNumber(today, previousMonday, monday, nextMonday) == (today - previousMonday) / 7 + 1
    ensures monday <= today < nextMonday ==> WeekNumber(today, previousMonday, monday, nextMonday) == (today - monday) / 7 + 1
    ensures nextMonday <= today ==> WeekNumber(today, previousMonday, monday, nextMonday) == 1
  {
  }

  /** The week number counts Mondays from the week-1 Monday of the date's
      ISO year: the year's own when the date is on or after it and before
      the next year's, the previous year's before it, and week 1 of the next
      ISO year from the next year's week-1 Monday on. */
  lemma IsoWeekCounts(d: Date)
    requires Valid(d)
    ensures Ordinal(d) < IsoWeek1Monday(d.year) ==>
      IsoWeek(d) == (Ordinal(d) - IsoWeek1Monday(d.year - 1)) / 7 + 1
    ensures IsoWeek1Monday(d.year) <= Ordinal(d) < IsoWeek1Monday(d.year + 1) ==>
      IsoWeek(d) == (Ordinal(d) - IsoWeek1Monday(d.year)) / 7 + 1
    ensures IsoWeek1Monday(d.year + 1) <= Ordinal(d) ==> IsoWeek(d) == 1
  {
    assert IsoWeek(d) == WeekNumber(Ordinal(d), IsoWeek1Monday(d.year - 1), IsoWeek1Monday(d.year), IsoWeek1Monday(d.year + 1));
    WeekOneMondaysApart(d.year);
    WeekNumberCases(Ordinal(d), IsoWeek1Monday(d.year - 1), IsoWeek1Monday(d.year), IsoWeek1Monday(d.year + 1));
  }

  /** Consecutive week-1 Mondays are at least 52 weeks apart. */
  lemma WeekOneMondaysApart(y: int)
    ensures IsoWeek1Monday(y + 1) - IsoWeek1Monday(y) >= 364
  {
    IsoWeekFacts(y);
    Week1MondayNearNewYear(y);
    Week1MondayNearNewYear(y + 1);
    MondaysApartAtLeast(IsoWeek1Monday(y), IsoWeek1Monday(y + 1));
  }

  /** ISO week 1 is the week that holds 4 January. */
  lemma FourthOfJanuaryIsWeekOne(y: int)
    requires MinYear <= y <= MaxYear
    ensures Valid(Date(y, 1, 4)) && IsoWeek(Date(y, 1, 4)) == 1
  {
    var d := Date(y, 1, 4);
    assert Ordinal(d) == DaysBeforeYear(y) + 4;
    WeekdayShift(DaysBeforeYear(y) + 1);
    IsoWeekFacts(y);
    IsoWeekCounts(d);
  }

  lemma MondaysApartAtLeast(a: int, b: int)
    requires (a + 6) % 7 == 0 && (b + 6) % 7 == 0 && b - a >= 358
    ensures b - a >= 364
  {
    assert a + 6 == (a + 6) / 7 * 7;
    assert b + 6 == (b + 6) / 7 * 7;
    var k := (b + 6) / 7 - (a + 6) / 7;
    assert b - a == k * 7;
  }

  /** A week-1 Monday lies within three days of 1 January and is a Monday. */
  lemma Week1MondayNearNewYear(y: int)
    ensures DaysBeforeYear(y) - 2 <= IsoWeek1Monday(y) <= DaysBeforeYear(y) + 4
    ensures (IsoWeek1Monday(y) + 6) % 7 == 0
  {
    var f := DaysBeforeYear(y) + 1;
    WeekdayShift(f);
  }

  /** Moving back to the Monday on or before a day, or on to the next one. */
  lemma WeekdayShift(f: int)
    ensures var wd := (f + 6) % 7; 0 <= wd < 7 && (f - wd + 6) % 7 == 0 && (f - wd + 7 + 6) % 7 == 0
  {
    var wd := (f + 6) % 7;
    var q := (f + 6) / 7;
    assert f + 6 == q * 7 + wd;
    assert f - wd + 6 == q * 7;
    assert f - wd + 7 + 6 == (q + 1) * 7;
  }

  /** A year has 365 or 366 days; these bounds are all the week count needs. */
  lemma YearLength(y: int)
    ensures 364 <= DaysBeforeYear(y + 1) - DaysBeforeYear(y) <= 367
  {
    var y1 := y - 1;
    assert DaysBeforeYear(y + 1) - DaysBeforeYear(y)
        == 365 + ((y1 + 1) / 4 - y1 / 4) - ((y1 + 1) / 100 - y1 / 100) + ((y1 + 1) / 400 - y1 / 400);
    assert 0 <= (y1 + 1) / 4 - y1 / 4 <= 1;
    assert 0 <= (y1 + 1) / 100 - y1 / 100 <= 1;
    assert 0 <= (y1 + 1) / 400 - y1 / 400 <= 1;
  }

  /** The week-1 Mondays of the year and the next one, and the days between
      them, as the week bound uses them: both are Mondays no more than 53
      weeks apart. */
  lemma IsoWeekFacts(y: int)
    ensures DaysBeforeYear(y) - 2 <= IsoWeek1Monday(y) <= DaysBeforeYear(y) + 4
    ensures DaysBeforeYear(y + 1) - 2 <= IsoWeek1Monday(y + 1) <= DaysBeforeYear(y + 1) + 4
    ensures 364 <= DaysBeforeYear(y + 1) - DaysBeforeYear(y) <= 367
    ensures IsoWeek1Monday(y + 1) - IsoWeek1Monday(y) <= 371
  {
    Week1MondayNearNewYear(y);
    Week1MondayNearNewYear(y + 1);
    YearLength(y);
    var a := IsoWeek1Monday(y);
    var b := IsoWeek1Monday(y + 1);
    MondaysApart(a, b);
  }

  lemma MondaysApart(a: int, b: int)
    requires (a + 6) % 7 == 0 && (b + 6) % 7 == 0 && b - a <= 373
    ensures b - a <= 371
  {
    assert a + 6 == (a + 6) / 7 * 7;
    assert b + 6 == (b + 6) / 7 * 7;
    var k := (b + 6) / 7 - (a + 6) / 7;
    assert b - a == k * 7;
  }
}
