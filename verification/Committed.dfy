/** What a stream knows of its committed recordings, and which it queues for deletion
    (server/db/stream/mod.rs, server/db/days.rs, server/db/db.rs, server/db/raw.rs,
    server/db/lifecycle.rs). */
module Committed {
  import opened Base
  import opened Days
  import opened StreamState

  /** Five minutes in 90 kHz units (server/db/recording.rs). */
  const MAX_RECORDING_WALL_DURATION: nat := 27_000_000

  /** A row of the recording table. */
  datatype Row = Row(id: int, start: int, duration: nat, bytes: nat)

  /** `StreamValue`: recordings that overlap a day, and their time on it. */
  datatype StreamValue = StreamValue(recordings: int, duration: int)

  type StreamDays = map<int, StreamValue>

  /** `StreamCommitted`, apart from its counter. */
  datatype Totals = Totals(range: Option<(int, int)>, days: StreamDays, bytes: int, fsBytes: int, duration: int)

  const EMPTY: Totals := Totals(None, map[], 0, 0, 0)

  /** A stream's rows in order of id, each of at most five minutes. */
  ghost predicate ValidTable(table: seq<Row>) {
    && (forall i | 0 <= i < |table| :: 0 <= table[i].id && table[i].duration <= MAX_RECORDING_WALL_DURATION)
    && (forall i, j | 0 <= i < j < |table| :: table[i].id < table[j].id)
  }

  /** Even the shortest day is longer than any recording. */
  ghost predicate LongDays(cal: Calendar) {
    ValidCalendar(cal) && forall k :: cal.start(k) + MAX_RECORDING_WALL_DURATION <= cal.start(k + 1)
  }

  // -- the folds of the table --------------------------------------------------------------------

  function SumBytes(rows: seq<Row>): nat {
    if rows == [] then 0 else rows[0].bytes + SumBytes(rows[1..])
  }

  function SumFs(rows: seq<Row>): nat {
    if rows == [] then 0 else RoundUp(rows[0].bytes) + SumFs(rows[1..])
  }

  function SumDuration(rows: seq<Row>): nat {
    if rows == [] then 0 else rows[0].duration + SumDuration(rows[1..])
  }

  function OnDay(cal: Calendar, r: Row, k: int): nat {
    Overlap(cal, r.start, r.start + r.duration, k)
  }

  function DayCount(cal: Calendar, rows: seq<Row>, k: int): nat {
    if rows == [] then 0 else (if OnDay(cal, rows[0], k) > 0 then 1 else 0) + DayCount(cal, rows[1..], k)
  }

  function DayDuration(cal: Calendar, rows: seq<Row>, k: int): nat {
    if rows == [] then 0 else OnDay(cal, rows[0], k) + DayDuration(cal, rows[1..], k)
  }

  lemma {:induction false} SumsMore(rows: seq<Row>, r: Row)
    ensures SumBytes(rows + [r]) == SumBytes(rows) + r.bytes
    ensures SumFs(rows + [r]) == SumFs(rows) + RoundUp(r.bytes)
    ensures SumDuration(rows + [r]) == SumDuration(rows) + r.duration
  {
    if rows != [] {
      assert (rows + [r])[1..] == rows[1..] + [r];
      SumsMore(rows[1..], r);
    }
  }

  lemma {:induction false} DayMore(cal: Calendar, rows: seq<Row>, r: Row, k: int)
    ensures DayCount(cal, rows + [r], k) == DayCount(cal, rows, k) + (if OnDay(cal, r, k) > 0 then 1 else 0)
    ensures DayDuration(cal, rows + [r], k) == DayDuration(cal, rows, k) + OnDay(cal, r, k)
  {
    if rows != [] {
      assert (rows + [r])[1..] == rows[1..] + [r];
      DayMore(cal, rows[1..], r, k);
    }
  }

  lemma {:induction false} NoTimeWithoutRecordings(cal: Calendar, rows: seq<Row>, k: int)
    ensures DayCount(cal, rows, k) == 0 ==> DayDuration(cal, rows, k) == 0
  {
    if rows != [] {
      NoTimeWithoutRecordings(cal, rows[1..], k);
    }
  }

  /** The per-day map has exactly the days with recordings, each with their number and time. */
  ghost predicate DaysExact(cal: Calendar, days: StreamDays, rows: seq<Row>) {
    forall k :: DayExact(cal, days, rows, k)
  }

  ghost predicate DayExact(cal: Calendar, days: StreamDays, rows: seq<Row>, k: int) {
    && (k in days <==> DayCount(cal, rows, k) > 0)
    && (k in days ==> days[k] == StreamValue(DayCount(cal, rows, k), DayDuration(cal, rows, k)))
  }

  ghost predicate RangeExact(range: Option<(int, int)>, rows: seq<Row>) {
    if rows == [] then range.None?
    else range.Some? && IsRange(range.value.0, range.value.1, rows)
  }

  /** The least start and the greatest end. */
  ghost predicate IsRange(lo: int, hi: int, rows: seq<Row>) {
    && (forall r | r in rows :: lo <= r.start && r.start + r.duration <= hi)
    && (exists r :: r in rows && r.start == lo)
    && (exists r :: r in rows && r.start + r.duration == hi)
  }

  ghost predicate TotalsExact(cal: Calendar, t: Totals, rows: seq<Row>) {
    && t.bytes == SumBytes(rows) && t.fsBytes == SumFs(rows) && t.duration == SumDuration(rows)
    && DaysExact(cal, t.days, rows)
  }

  // -- the per-day map ---------------------------------------------------------------------------

  /** `Map::adjust_day` with `StreamValue::apply`. */
  function AdjustDay(m: StreamDays, k: int, c: StreamValue): StreamDays {
    if k !in m then m[k := c]
    else
      var v := StreamValue(m[k].recordings + c.recordings, m[k].duration + c.duration);
      if v.recordings == 0 then m - {k} else m[k := v]
  }

  /** `Map<StreamValue>::adjust`: at most the day of the start and the next one. */
  function AdjustStream(cal: Calendar, m: StreamDays, lo: int, hi: int, sign: int): StreamDays {
    if hi <= lo then m
    else
      var day := cal.dayOf(lo);
      var boundary := cal.start(day + 1);
      var first := AdjustDay(m, day, StreamValue(sign, sign * (Min(hi, boundary) - lo)));
      if hi <= boundary then first
      else AdjustDay(first, day + 1, StreamValue(sign, sign * (hi - boundary)))
  }

  /** A recording is on no day but that of its start and the next. */
  lemma TwoDays(cal: Calendar, r: Row, k: int)
    requires LongDays(cal) && r.duration <= MAX_RECORDING_WALL_DURATION
    ensures var day, hi := cal.dayOf(r.start), r.start + r.duration;
            OnDay(cal, r, k) == if k == day then Min(hi, cal.start(day + 1)) - r.start
                                else if k == day + 1 then Max(0, hi - cal.start(day + 1)) else 0
  {
    var day, hi := cal.dayOf(r.start), r.start + r.duration;
    assert cal.start(day) <= r.start < cal.start(day + 1);
    assert cal.start(day + 1) + MAX_RECORDING_WALL_DURATION <= cal.start(day + 1 + 1);
    if k < day {
      OverlapOutside(cal, r.start, hi, day, k);
    } else if k > day + 1 {
      StartMonotone(cal, day + 2, k);
    }
  }

  lemma AdjustAdds(cal: Calendar, m: StreamDays, rows: seq<Row>, r: Row)
    requires LongDays(cal) && r.duration <= MAX_RECORDING_WALL_DURATION && DaysExact(cal, m, rows)
    ensures DaysExact(cal, AdjustStream(cal, m, r.start, r.start + r.duration, 1), rows + [r])
  {
    hide DayCount, DayDuration, OnDay, LongDays;
    var after := AdjustStream(cal, m, r.start, r.start + r.duration, 1);
    DayOf(cal, r.start);
    forall k ensures DayExact(cal, after, rows + [r], k) {
      assert DayExact(cal, m, rows, k);
      TwoDays(cal, r, k);
      DayMore(cal, rows, r, k);
      DayOf(cal, r.start);
      var n := OnDay(cal, r, k);
      if n == 0 {
        NotAdjusted(cal, m, r, 1, k);
      } else {
        assert k in after && after[k] == AdjustDay(m, k, StreamValue(1, n))[k];
        NoTimeWithoutRecordings(cal, rows, k);
      }
    }
  }

  lemma NotAdjusted(cal: Calendar, m: StreamDays, r: Row, sign: int, k: int)
    requires LongDays(cal) && r.duration <= MAX_RECORDING_WALL_DURATION && OnDay(cal, r, k) == 0
    ensures var after := AdjustStream(cal, m, r.start, r.start + r.duration, sign);
            (k in after <==> k in m) && (k in m ==> after[k] == m[k])
  {
    hide OnDay, LongDays;
    TwoDays(cal, r, k);
    DayOf(cal, r.start);
  }

  lemma AdjustRemoves(cal: Calendar, m: StreamDays, rows: seq<Row>)
    requires LongDays(cal) && rows != [] && rows[0].duration <= MAX_RECORDING_WALL_DURATION && DaysExact(cal, m, rows)
    ensures DaysExact(cal, AdjustStream(cal, m, rows[0].start, rows[0].start + rows[0].duration, -1), rows[1..])
  {
    hide OnDay, LongDays;
    var r := rows[0];
    var after := AdjustStream(cal, m, r.start, r.start + r.duration, -1);
    DayOf(cal, r.start);
    forall k ensures DayExact(cal, after, rows[1..], k) {
      assert DayExact(cal, m, rows, k);
      TwoDays(cal, r, k);
      NoTimeWithoutRecordings(cal, rows[1..], k);
    }
  }

  lemma DayOf(cal: Calendar, t: int)
    requires LongDays(cal)
    ensures cal.start(cal.dayOf(t)) <= t < cal.start(cal.dayOf(t) + 1)
  {
  }

  // -- add_recording -----------------------------------------------------------------------------

  /** `StreamCommitted::add_recording`. */
  function AddRecording(cal: Calendar, t: Totals, r: Row): Totals {
    var end := r.start + r.duration;
    Totals(if t.range.Some? then Some((Min(t.range.value.0, r.start), Max(t.range.value.1, end))) else Some((r.start, end)),
           AdjustStream(cal, t.days, r.start, end, 1), t.bytes + r.bytes, t.fsBytes + RoundUp(r.bytes), t.duration + r.duration)
  }

  lemma AddKeepsExact(cal: Calendar, t: Totals, rows: seq<Row>, r: Row)
    requires LongDays(cal) && r.duration <= MAX_RECORDING_WALL_DURATION && TotalsExact(cal, t, rows)
    ensures TotalsExact(cal, AddRecording(cal, t, r), rows + [r])
    ensures RangeExact(t.range, rows) ==> RangeExact(AddRecording(cal, t, r).range, rows + [r])
  {
    hide AdjustStream, DaysExact, LongDays, SumBytes, SumFs, SumDuration, RoundUp, RangeExact;
    SumsMore(rows, r);
    AdjustAdds(cal, t.days, rows, r);
    if RangeExact(t.range, rows) {
      RangeGrows(cal, t, rows, r);
    }
  }

  lemma RangeGrows(cal: Calendar, t: Totals, rows: seq<Row>, r: Row)
    requires RangeExact(t.range, rows)
    ensures RangeExact(AddRecording(cal, t, r).range, rows + [r])
  {
    hide AdjustStream, RoundUp;
    assert r in rows + [r];
    var range := AddRecording(cal, t, r).range.value;
    if t.range.Some? {
      var a :| a in rows && a.start == t.range.value.0;
      var b :| b in rows && b.start + b.duration == t.range.value.1;
      assert a in rows + [r] && b in rows + [r];
      assert range.0 == if t.range.value.0 <= r.start then a.start else r.start;
      assert range.1 == if t.range.value.1 >= r.start + r.duration then b.start + b.duration else r.start + r.duration;
    }
    assert IsRange(range.0, range.1, rows + [r]);
  }

  // -- get_range ---------------------------------------------------------------------------------

  /** The table's rows as a query ordered by descending start returns them. */
  ghost predicate ByStart(order: seq<Row>, rows: seq<Row>) {
    && multiset(order) == multiset(rows)
    && forall i, j | 0 <= i < j < |order| :: order[i].start >= order[j].start
  }

  /** `get_range`: the scan for the greatest end stops at the first row that starts five minutes or
      more before the last start. */
  method GetRange(order: seq<Row>, rows: seq<Row>) returns (range: Option<(int, int)>)
    requires ByStart(order, rows) && forall r | r in rows :: r.duration <= MAX_RECORDING_WALL_DURATION
    ensures RangeExact(range, rows)
  {
    SameRows(order, rows);
    if order == [] {
      return None;
    }
    var minStart := order[|order| - 1].start;
    var start, end := order[0].start, order[0].start + order[0].duration;
    ghost var best := 0;
    var i := 1;
    while i < |order|
      invariant 1 <= i <= |order| && start == order[0].start && start <= end
      invariant 0 <= best < |order| && order[best].start + order[best].duration == end
      invariant forall j | 0 <= j < i :: order[j].start + order[j].duration <= end
      decreases |order| - i
    {
      var rowEnd := order[i].start + order[i].duration;
      if order[i].start <= start - MAX_RECORDING_WALL_DURATION {
        LaterEndBefore(order, i, end);
        break;
      }
      if rowEnd > end {
        end, best := rowEnd, i;
      }
      i := i + 1;
    }
    RangeFound(order, rows, end, best);
    return Some((minStart, end));
  }

  lemma SameRows(order: seq<Row>, rows: seq<Row>)
    requires multiset(order) == multiset(rows)
    ensures |order| == |rows| && (forall r :: r in order <==> r in rows)
    ensures (forall r | r in rows :: r.duration <= MAX_RECORDING_WALL_DURATION) ==>
              forall j | 0 <= j < |order| :: order[j].duration <= MAX_RECORDING_WALL_DURATION
  {
    assert |multiset(order)| == |order| && |multiset(rows)| == |rows|;
    forall r ensures r in order <==> r in rows {
      assert r in order <==> r in multiset(order);
      assert r in rows <==> r in multiset(rows);
    }
    assert forall j | 0 <= j < |order| :: order[j] in order;
  }

  lemma LaterEndBefore(order: seq<Row>, i: nat, end: int)
    requires i < |order| && (forall j | 0 <= j < |order| :: order[j].duration <= MAX_RECORDING_WALL_DURATION)
    requires forall i, j | 0 <= i < j < |order| :: order[i].start >= order[j].start
    requires order[i].start <= order[0].start - MAX_RECORDING_WALL_DURATION && order[0].start <= end
    ensures forall j | i <= j < |order| :: order[j].start + order[j].duration <= end
  {
  }

  lemma RangeFound(order: seq<Row>, rows: seq<Row>, end: int, best: nat)
    requires ByStart(order, rows) && best < |order| && order[best].start + order[best].duration == end
    requires forall j | 0 <= j < |order| :: order[j].start + order[j].duration <= end
    ensures RangeExact(Some((order[|order| - 1].start, end)), rows)
  {
    SameRows(order, rows);
    var minStart := order[|order| - 1].start;
    forall r | r in rows ensures minStart <= r.start && r.start + r.duration <= end {
      assert r in order;
      var j :| 0 <= j < |order| && order[j] == r;
    }
    assert order[|order| - 1] in order && order[best] in order;
    assert IsRange(minStart, end, rows);
  }
}
