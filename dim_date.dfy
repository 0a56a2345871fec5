/** The `dim_date` dimension table and `ensure_dim_date`, which fills it one
    day at a time with INSERT OR IGNORE and commits at the end. */
module DimDate {
  import opened Wrappers
  import opened Dates

  /** One row of `dim_date`: `(date_id, date, month, quarter, year, week)`,
      keyed by `date_id` in the table map. */
  datatype DateRow = DateRow(date: Date, month: int, quarter: int, year: int, week: int)

  /** The row `ensure_dim_date` inserts for a day. */
  function RowOf(d: Date): (r: DateRow)
    requires Valid(d)
    ensures r.date == d && r.month == d.month && r.year == d.year
    ensures 1 <= r.quarter <= 4 && 3 * (r.quarter - 1) < d.month <= 3 * r.quarter
    ensures 1 <= r.week <= 53
  {
    DateRow(d, d.month, Quarter(d.month), d.year, IsoWeek(d))
  }

  /** The keys in `[lo, hi)` that are the key of some valid date. */
  function DayIds(lo: int, hi: int): set<int> {
    set id | lo <= id < hi && DateOfId(id).Some?
  }

  /** The table after INSERT OR IGNORE of the row of every day whose key is in
      `[lo, hi)`: rows already present stay, missing days are added. */
  function Filled(table: map<int, DateRow>, lo: int, hi: int): (r: map<int, DateRow>)
    ensures r.Keys == table.Keys + DayIds(lo, hi)
  {
    map id | id in table.Keys + DayIds(lo, hi) ::
      if id in table then table[id] else RowOf(DateOfId(id).value)
  }

  /** Only the set of day keys matters. */
  lemma FilledSameDays(table: map<int, DateRow>, lo: int, h1: int, h2: int)
    requires DayIds(lo, h1) == DayIds(lo, h2)
    ensures Filled(table, lo, h1) == Filled(table, lo, h2)
  {
  }

  /** No valid key lies strictly between a day's key and the next day's. */
  lemma NoKeyBetweenDays(d: Date, next: Date, id: int)
    requires Valid(d) && NextDay(d) == Some(next)
    requires ToDateId(d) < id < ToDateId(next)
    ensures DateOfId(id).None?
  {
    if DateOfId(id).Some? {
      var e := DateOfId(id).value;
      DateIdMonotone(d, e);
      NextDayImmediate(d, e);
      DateIdMonotone(next, e);
    }
  }

  /** Moving the upper bound past one day adds exactly that day's key. */
  lemma DayIdsStep(lo: int, d: Date, next: Date)
    requires Valid(d) && NextDay(d) == Some(next) && lo <= ToDateId(d)
    ensures DayIds(lo, ToDateId(next)) == DayIds(lo, ToDateId(d)) + {ToDateId(d)}
    ensures DayIds(lo, ToDateId(next)) == DayIds(lo, ToDateId(d) + 1)
  {
    DateIdMonotone(d, next);
    DateOfIdRoundTrip(d);
    forall id | id in DayIds(lo, ToDateId(next))
      ensures id in DayIds(lo, ToDateId(d)) + {ToDateId(d)}
    {
      if ToDateId(d) < id {
        NoKeyBetweenDays(d, next, id);
      }
    }
  }

  /** Adding one day's key to the range: the day's row is inserted unless its
      key is already there. */
  lemma FilledAddDay(table: map<int, DateRow>, lo: int, d: Date)
    requires Valid(d) && lo <= ToDateId(d)
    ensures ToDateId(d) in Filled(table, lo, ToDateId(d)) ==>
      Filled(table, lo, ToDateId(d) + 1) == Filled(table, lo, ToDateId(d))
    ensures ToDateId(d) !in Filled(table, lo, ToDateId(d)) ==>
      Filled(table, lo, ToDateId(d) + 1) == Filled(table, lo, ToDateId(d))[ToDateId(d) := RowOf(d)]
  {
    DateOfIdRoundTrip(d);
    assert DayIds(lo, ToDateId(d) + 1) == DayIds(lo, ToDateId(d)) + {ToDateId(d)};
    if ToDateId(d) in Filled(table, lo, ToDateId(d)) {
      AddPresentKey(table, lo, ToDateId(d));
    } else {
      AddMissingKey(table, lo, ToDateId(d), d);
    }
  }

  lemma AddPresentKey(table: map<int, DateRow>, lo: int, key: int)
    requires key in Filled(table, lo, key)
    requires DayIds(lo, key + 1) == DayIds(lo, key) + {key}
    ensures Filled(table, lo, key + 1) == Filled(table, lo, key)
  {
    var before := Filled(table, lo, key);
    var after := Filled(table, lo, key + 1);
    assert after.Keys == before.Keys;
    forall id | id in after.Keys ensures after[id] == before[id] {
    }
  }

  lemma AddMissingKey(table: map<int, DateRow>, lo: int, key: int, d: Date)
    requires Valid(d) && DateOfId(key) == Some(d) && key !in Filled(table, lo, key)
    requires DayIds(lo, key + 1) == DayIds(lo, key) + {key}
    ensures Filled(table, lo, key + 1) == Filled(table, lo, key)[key := RowOf(d)]
  {
    var before := Filled(table, lo, key);
    var after := Filled(table, lo, key + 1);
    assert after.Keys == before.Keys + {key};
    assert after[key] == RowOf(d) by {
      assert key !in table;
    }
    forall id | id in before && id != key ensures after[id] == before[id] {
    }
    UpdateExtensional(after, before, key, RowOf(d));
  }

  /** A map that agrees with another everywhere except at one added key is
      that map updated at the key. */
  lemma UpdateExtensional(after: map<int, DateRow>, before: map<int, DateRow>, key: int, v: DateRow)
    requires after.Keys == before.Keys + {key}
    requires key in after && after[key] == v
    requires forall id | id in before && id != key :: after[id] == before[id]
    ensures after == before[key := v]
  {
    var expected := before[key := v];
    assert after.Keys == expected.Keys;
    forall id | id in after ensures after[id] == expected[id] {
    }
  }

  /** After the fill over `[s, t]`, every day of the range has a row under
      its key; the row that was there is kept, and a new row carries the
      day's month, its quarter and year. */
  lemma FilledCoversRange(table: map<int, DateRow>, s: Date, t: Date, e: Date)
    requires Valid(s) && Valid(t) && Valid(e) && NotAfter(s, e) && NotAfter(e, t)
    ensures ToDateId(e) in Filled(table, ToDateId(s), ToDateId(t) + 1)
    ensures ToDateId(e) in table ==> Filled(table, ToDateId(s), ToDateId(t) + 1)[ToDateId(e)] == table[ToDateId(e)]
    ensures ToDateId(e) !in table ==> Filled(table, ToDateId(s), ToDateId(t) + 1)[ToDateId(e)] == RowOf(e)
    ensures ToDateId(e) !in table ==>
      var row := Filled(table, ToDateId(s), ToDateId(t) + 1)[ToDateId(e)];
      row.month == e.month && row.year == e.year && 1 <= row.quarter <= 4 && row.quarter == (e.month - 1) / 3 + 1
  {
    DateIdMonotone(s, e);
    DateIdMonotone(e, t);
    DateOfIdRoundTrip(e);
    assert ToDateId(e) in DayIds(ToDateId(s), ToDateId(t) + 1);
  }

  /** The fill never changes a row that exists, and every key it adds is the
      key of a day in `[s, t]` holding that day's row. */
  lemma FilledAddsOnlyRange(table: map<int, DateRow>, s: Date, t: Date, id: int)
    requires Valid(s) && Valid(t)
    requires id in Filled(table, ToDateId(s), ToDateId(t) + 1)
    ensures id in table ==> Filled(table, ToDateId(s), ToDateId(t) + 1)[id] == table[id]
    ensures id !in table ==>
      && DateOfId(id).Some?
      && NotAfter(s, DateOfId(id).value) && NotAfter(DateOfId(id).value, t)
      && Filled(table, ToDateId(s), ToDateId(t) + 1)[id] == RowOf(DateOfId(id).value)
  {
    if id !in table {
      var e := DateOfId(id).value;
      DateIdMonotone(s, e);
      DateIdMonotone(e, t);
    }
  }

  /** Running the fill a second time over the same range changes nothing. */
  lemma FillIdempotent(table: map<int, DateRow>, lo: int, hi: int)
    ensures Filled(Filled(table, lo, hi), lo, hi) == Filled(table, lo, hi)
  {
    var once := Filled(table, lo, hi);
    var twice := Filled(once, lo, hi);
    assert twice.Keys == once.Keys;
    forall id | id in twice.Keys ensures twice[id] == once[id] {
    }
  }

  /** When the day loop stops normally, the days it has covered are exactly
      those of `[start, end]`, and `end` was not the last representable day. */
  lemma FillReachedEnd(table: map<int, DateRow>, start: Date, end: Date, d: Date, prev: Date)
    requires Valid(start) && Valid(end) && Valid(d) && Valid(prev)
    requires NotAfter(start, prev) && !NotAfter(d, end)
    requires d == start || (NotAfter(prev, end) && NextDay(prev) == Some(d))
    ensures Filled(table, ToDateId(start), ToDateId(d)) == Filled(table, ToDateId(start), ToDateId(end) + 1)
    ensures !(NotAfter(start, end) && end == LastDate)
  {
    if d == start {
      DateIdMonotone(end, start);
      FilledSameDays(table, ToDateId(start), ToDateId(d), ToDateId(end) + 1);
    } else {
      FillStoppedAfterEnd(table, start, end, d, prev);
    }
  }

  /** The loop stopped after a step: the last day filled was `end` itself. */
  lemma FillStoppedAfterEnd(table: map<int, DateRow>, start: Date, end: Date, d: Date, prev: Date)
    requires Valid(start) && Valid(end) && Valid(d) && Valid(prev)
    requires NotAfter(start, prev) && !NotAfter(d, end)
    requires NotAfter(prev, end) && NextDay(prev) == Some(d)
    ensures Filled(table, ToDateId(start), ToDateId(d)) == Filled(table, ToDateId(start), ToDateId(end) + 1)
    ensures end != LastDate
  {
    StepPastEnd(prev, end, d);
    DateIdMonotone(start, end);
    DayIdsStep(ToDateId(start), end, d);
    FilledSameDays(table, ToDateId(start), ToDateId(d), ToDateId(end) + 1);
  }

  /** A step from a day not after `end` that lands past `end` starts at `end`. */
  lemma StepPastEnd(prev: Date, end: Date, d: Date)
    requires Valid(prev) && Valid(end) && Valid(d)
    requires NotAfter(prev, end) && NextDay(prev) == Some(d) && !NotAfter(d, end)
    ensures prev == end && end != LastDate
  {
    if Before(prev, end) {
      NextDayImmediate(prev, end);
    }
  }

  /** What one turn of the day loop needs: the day lies in `[start, end]`,
      and the keys covered after its insert are those below the next day's. */
  lemma FillAdvance(table: map<int, DateRow>, start: Date, end: Date, d: Date, next: Date)
    requires Valid(start) && Valid(d) && Valid(end)
    requires NotAfter(start, d) && NotAfter(d, end) && NextDay(d) == Some(next)
    ensures ToDateId(start) <= ToDateId(d) <= ToDateId(end) < ToDateId(end) + 1
    ensures ToDateId(d) < ToDateId(next)
    ensures Filled(table, ToDateId(start), ToDateId(d) + 1) == Filled(table, ToDateId(start), ToDateId(next))
  {
    DateIdMonotone(start, d);
    DateIdMonotone(d, end);
    DateIdMonotone(d, next);
    DayIdsStep(ToDateId(start), d, next);
    FilledSameDays(table, ToDateId(start), ToDateId(d) + 1, ToDateId(next));
  }

  /** One `INSERT OR IGNORE INTO dim_date` of a day's row into the open
      transaction: a row already stored under the key is left alone. */
  method InsertOrIgnore(pending: map<int, DateRow>, d: Date, ghost table: map<int, DateRow>, ghost lo: int)
    returns (updated: map<int, DateRow>)
    requires Valid(d) && lo <= ToDateId(d) && pending == Filled(table, lo, ToDateId(d))
    ensures ToDateId(d) in updated
    ensures ToDateId(d) in pending ==> updated == pending
    ensures updated == Filled(table, lo, ToDateId(d) + 1)
  {
    var dateId := ToDateId(d);
    updated := pending;
    if dateId !in pending {
      updated := pending[dateId := RowOf(d)];
    }
    FilledAddDay(table, lo, d);
  }

  /** The `dim_date` table, updated in place by `ensure_dim_date`. */
  class DimDateTable {
    var rows: map<int, DateRow>

    constructor ()
      ensures rows == map[]
    {
      rows := map[];
    }

    /** `ensure_dim_date(start, end)`. The inserts go into an open transaction
        (`pending`) that is committed only after the loop; stepping past
        9999-12-31 raises OverflowError first, and then nothing is committed
        (`committed` is false and the table is as before). */
    method EnsureDimDate(start: Date, end: Date) returns (committed: bool)
      requires Valid(start) && Valid(end)
      modifies this
      ensures committed <==> !(NotAfter(start, end) && end == LastDate)
      ensures committed ==> rows == Filled(old(rows), ToDateId(start), ToDateId(end) + 1)
      ensures !committed ==> rows == old(rows)
    {
      var pending := rows;
      var d := start;
      ghost var prev := start;
      while NotAfter(d, end)
        invariant rows == old(rows)
        invariant Valid(d) && NotAfter(start, d)
        invariant pending == Filled(rows, ToDateId(start), ToDateId(d))
        invariant Valid(prev) && NotAfter(start, prev)
        invariant d == start || (NotAfter(prev, end) && NextDay(prev) == Some(d))
        decreases ToDateId(end) - ToDateId(d)
      {
        var next := NextDay(d);
        if next.None? {
          return false;
        }
        FillAdvance(rows, start, end, d, next.value);
        pending := InsertOrIgnore(pending, d, rows, ToDateId(start));
        prev := d;
        d := next.value;
      }
      FillReachedEnd(rows, start, end, d, prev);
      rows := pending;
      return true;
    }
  }
}
