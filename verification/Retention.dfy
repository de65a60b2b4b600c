/** A stream's accounts over loads, additions, queued deletions and flushes, and how much a deletion
    queues (server/db/lifecycle.rs, server/db/db.rs). */
module Retention {
  import opened Base
  import opened Days
  import opened StreamState
  import opened Committed

  lemma {:induction false} SumsSplit(a: seq<Row>, b: seq<Row>)
    ensures SumBytes(a + b) == SumBytes(a) + SumBytes(b)
    ensures SumFs(a + b) == SumFs(a) + SumFs(b)
  {
    if a == [] {
      assert a + b == b;
    } else {
      assert (a + b)[1..] == a[1..] + b;
      SumsSplit(a[1..], b);
    }
  }

  /** The first row at or after `id`, as the query for the oldest recordings finds it. */
  function FirstFrom(table: seq<Row>, id: int): (i: nat)
    ensures i <= |table|
    ensures forall j | 0 <= j < i :: table[j].id < id
    ensures i < |table| ==> id <= table[i].id
  {
    if table != [] && table[0].id < id then 1 + FirstFrom(table[1..], id) else 0
  }

  /** A prefix of the table ends where its last row's successor would start. */
  lemma PrefixEnd(table: seq<Row>, n: nat)
    requires ValidTable(table) && n <= |table|
    ensures FirstFrom(table, if n == 0 then 0 else table[n - 1].id + 1) == n
  {
  }

  /** `accounts` follow `table`, the database's rows of the stream. */
  class StreamAccounts {
    const cal: Calendar
    var table: seq<Row>
    var committed: Totals
    var toDelete: seq<Row>
    var bytesToDelete: int
    var fsBytesToDelete: int

    /** Bytes, filesystem bytes, duration and per-day map are the folds of the rows, the range is
        their least start and greatest end, and what is queued for deletion are the oldest rows. */
    ghost predicate Valid()
      reads this
    {
      && LongDays(cal) && ValidTable(table)
      && TotalsExact(cal, committed, table) && RangeExact(committed.range, table)
      && toDelete <= table && bytesToDelete == SumBytes(toDelete) && fsBytesToDelete == SumFs(toDelete)
    }

    /** `init_recordings`. */
    constructor Load(cal: Calendar, rows: seq<Row>)
      requires LongDays(cal) && ValidTable(rows)
      ensures Valid() && table == rows && toDelete == []
    {
      NothingCounted(cal);
      hide TotalsExact, RangeExact, LongDays, ValidTable, SumFs, SumBytes;
      PartOf([], rows);
      assert [] + rows == rows;
      var t := AddAll(cal, EMPTY, [], rows);
      this.cal, table, committed := cal, rows, t;
      toDelete, bytesToDelete, fsBytesToDelete := [], 0, 0;
      NothingQueued(rows);
    }

    /** What the stream will use once the queued deletions are done: committed bytes and those that
        the next flush adds. */
    function Projected(toAdd: nat): int
      reads this
    {
      committed.fsBytes + toAdd - fsBytesToDelete
    }

    /** `enqueue_delete_recordings` with `delete_oldest_recordings`: queues the fewest oldest rows that
        its rule allows. Afterwards every row is queued or the projected usage is within the limit;
        without the last one queued it would have been at or above it. */
    method EnqueueDelete(toAdd: nat, extra: int, retain: int)
      requires Valid()
      modifies this`toDelete, this`bytesToDelete, this`fsBytesToDelete
      ensures Valid() && old(toDelete) <= toDelete
      ensures toDelete == table || Projected(toAdd) + extra <= retain
      ensures toDelete != old(toDelete) ==> toDelete == table || Projected(toAdd) + extra < retain
      ensures toDelete != old(toDelete) ==>
        old(Projected(toAdd)) - SumFs(toDelete[|old(toDelete)|..|toDelete| - 1]) + extra >= retain
      ensures old(Projected(toAdd)) + extra <= retain ==> toDelete == old(toDelete)
    {
      hide TotalsExact, RangeExact, LongDays, ValidTable, SumFs, SumBytes;
      var needed := committed.fsBytes + toAdd - fsBytesToDelete + extra - retain;
      if needed <= 0 {
        return;
      }
      var queued, bytes, fsBytes := DeleteOldest(table, toDelete, needed);
      SumsSplit(toDelete, queued);
      assert queued != [] ==> (toDelete + queued)[|toDelete|..|toDelete + queued| - 1] == queued[..|queued| - 1];
      toDelete := toDelete + queued;
      bytesToDelete := bytesToDelete + bytes;
      fsBytesToDelete := fsBytesToDelete + fsBytes;
    }

    /** What a flush does to the accounts: the new rows in, the queued ones out. The number of rows
        deleted is always the number queued, so `ok`. `order` is the database's answer to the query for
        the greatest end. */
    method Flush(news: seq<Row>, order: seq<Row>) returns (ok: bool)
      requires Valid() && ValidTable(table + news) && ByStart(order, table[|toDelete|..] + news)
      modifies this
      ensures ok && Valid() && toDelete == [] && table == old(table)[|old(toDelete)|..] + news
    {
      hide TotalsExact, RangeExact, LongDays, ValidTable, SumFs, SumBytes, ByStart;
      if news == [] && toDelete == [] {
        assert table[0..] + news == table;
        return true;
      }
      var after, t;
      ok, after, t := FlushTotals(cal, committed.(bytes := committed.bytes - bytesToDelete, fsBytes := committed.fsBytes - fsBytesToDelete),
                                  table, toDelete, news, order);
      if !ok {
        return;
      }
      table, committed := after, t;
      toDelete, bytesToDelete, fsBytesToDelete := [], 0, 0;
      NothingQueued(after);
    }
  }

  /** The part of a flush that finds the rows to delete and brings the totals up to date; the bytes of
      the queued rows were subtracted at once. */
  method FlushTotals(cal: Calendar, before: Totals, table: seq<Row>, toDelete: seq<Row>, news: seq<Row>, order: seq<Row>)
    returns (ok: bool, after: seq<Row>, t: Totals)
    requires LongDays(cal) && ValidTable(table) && toDelete <= table
    requires TotalsExact(cal, before.(bytes := before.bytes + SumBytes(toDelete), fsBytes := before.fsBytes + SumFs(toDelete)), table)
    requires ValidTable(table + news) && ByStart(order, table[|toDelete|..] + news)
    ensures ok && after == table[|toDelete|..] + news
    ensures ValidTable(after) && TotalsExact(cal, t, after) && RangeExact(t.range, after)
  {
    hide TotalsExact, RangeExact, LongDays, ValidTable, SumFs, SumBytes, ByStart;
    t := before;
    var all := table + news;
    after := all;
    if toDelete != [] {
      QueuedAreOldest(table, toDelete, news);
      var deleted := FirstFrom(all, toDelete[|toDelete| - 1].id + 1);
      if deleted != |toDelete| {
        return false, after, t;
      }
      after := all[deleted..];
    }
    assert after == table[|toDelete|..] + news;
    ShortRows(all, |toDelete|);
    PartOf(table, news);
    var range := GetRange(order, after);
    t := RemoveOldest(cal, t, table, toDelete);
    t := AddAll(cal, t, table[|toDelete|..], news);
    OtherRange(cal, t, range, after);
    return true, after, t.(range := range);
  }

  lemma OtherRange(cal: Calendar, t: Totals, range: Option<(int, int)>, rows: seq<Row>)
    requires TotalsExact(cal, t, rows)
    ensures TotalsExact(cal, t.(range := range), rows)
  {
  }

  lemma NothingCounted(cal: Calendar)
    ensures TotalsExact(cal, EMPTY, []) && RangeExact(EMPTY.range, [])
  {
  }

  lemma NothingQueued(rows: seq<Row>)
    ensures SumBytes([]) == 0 && SumFs([]) == 0 && [] <= rows
  {
  }

  lemma QueuedAreOldest(table: seq<Row>, toDelete: seq<Row>, news: seq<Row>)
    requires ValidTable(table + news) && toDelete <= table && toDelete != []
    ensures FirstFrom(table + news, toDelete[|toDelete| - 1].id + 1) == |toDelete|
  {
    PrefixEnd(table + news, |toDelete|);
    assert (table + news)[|toDelete| - 1] == toDelete[|toDelete| - 1];
  }

  lemma ShortRows(all: seq<Row>, n: nat)
    requires ValidTable(all) && n <= |all|
    ensures ValidTable(all[n..]) && forall r | r in all[n..] :: r.duration <= MAX_RECORDING_WALL_DURATION
  {
  }

  lemma PartOf(table: seq<Row>, news: seq<Row>)
    requires ValidTable(table + news)
    ensures forall i | 0 <= i < |news| :: news[i].duration <= MAX_RECORDING_WALL_DURATION
  {
    forall i | 0 <= i < |news| ensures news[i].duration <= MAX_RECORDING_WALL_DURATION {
      assert (table + news)[|table| + i] == news[i];
    }
  }

  /** `delete_oldest_recordings` with the closure of `enqueue_delete_recordings`: rows from the one
      after the last queued on, in order of id, while no more than `needed` is queued. */
  method DeleteOldest(table: seq<Row>, toDelete: seq<Row>, needed: int) returns (queued: seq<Row>, bytes: nat, fsBytes: nat)
    requires ValidTable(table) && toDelete <= table && needed > 0
    ensures toDelete + queued <= table && bytes == SumBytes(queued) && fsBytes == SumFs(queued)
    ensures toDelete + queued == table || fsBytes > needed
    ensures queued != [] ==> SumFs(queued[..|queued| - 1]) <= needed
  {
    hide SumFs, SumBytes;
    var start := if toDelete == [] then 0 else toDelete[|toDelete| - 1].id + 1;
    PrefixEnd(table, |toDelete|);
    assert toDelete == table[..|toDelete|];
    var first := FirstFrom(table, start);
    var i;
    i, queued, bytes, fsBytes := OldestRows(table, first, needed);
    assert toDelete + queued == table[..i];
  }

  /** The listing that `delete_oldest_recordings` stops once the rows queued exceed what is needed. */
  method OldestRows(table: seq<Row>, first: nat, needed: int) returns (i: nat, queued: seq<Row>, bytes: nat, fsBytes: nat)
    requires first <= |table| && needed > 0
    ensures first <= i <= |table| && queued == table[first..i]
    ensures bytes == SumBytes(queued) && fsBytes == SumFs(queued)
    ensures i == |table| || fsBytes > needed
    ensures queued != [] ==> SumFs(queued[..|queued| - 1]) <= needed
  {
    hide SumFs, SumBytes, RoundUp;
    i, queued, bytes, fsBytes := first, [], 0, 0;
    NothingQueued(table);
    while i < |table|
      invariant first <= i <= |table| && queued == table[first..i]
      invariant bytes == SumBytes(queued) && fsBytes == SumFs(queued)
      invariant queued != [] ==> SumFs(queued[..|queued| - 1]) <= needed
    {
      if needed < fsBytes {
        break;
      }
      SumsMore(queued, table[i]);
      assert (queued + [table[i]])[..|queued|] == queued;
      fsBytes := fsBytes + RoundUp(table[i].bytes);
      bytes := bytes + table[i].bytes;
      queued := queued + [table[i]];
      i := i + 1;
    }
  }

  /** The loops that call `add_recording`. */
  method AddAll(cal: Calendar, before: Totals, rows: seq<Row>, news: seq<Row>) returns (t: Totals)
    requires LongDays(cal) && TotalsExact(cal, before, rows)
    requires forall i | 0 <= i < |news| :: news[i].duration <= MAX_RECORDING_WALL_DURATION
    ensures TotalsExact(cal, t, rows + news)
    ensures RangeExact(before.range, rows) ==> RangeExact(t.range, rows + news)
  {
    hide TotalsExact, RangeExact, AddRecording, LongDays;
    t := before;
    var i := 0;
    assert rows + news[..0] == rows;
    while i < |news|
      invariant i <= |news| && TotalsExact(cal, t, rows + news[..i])
      invariant RangeExact(before.range, rows) ==> RangeExact(t.range, rows + news[..i])
    {
      AddKeepsExact(cal, t, rows + news[..i], news[i]);
      assert rows + news[..i + 1] == (rows + news[..i]) + [news[i]];
      t := AddRecording(cal, t, news[i]);
      i := i + 1;
    }
    assert news[..i] == news;
  }

  /** The loop over the deleted rows after a commit; the bytes were subtracted at once before it. */
  method RemoveOldest(cal: Calendar, before: Totals, table: seq<Row>, rows: seq<Row>) returns (t: Totals)
    requires LongDays(cal) && ValidTable(table) && rows <= table
    requires TotalsExact(cal, before.(bytes := before.bytes + SumBytes(rows), fsBytes := before.fsBytes + SumFs(rows)), table)
    ensures TotalsExact(cal, t, table[|rows|..]) && t.range == before.range
  {
    hide LongDays, AdjustStream, DayExact;
    t := before;
    var i := 0;
    assert table[0..] == table;
    while i < |rows|
      invariant i <= |rows| && t.range == before.range && t.bytes == before.bytes && t.fsBytes == before.fsBytes
      invariant t.duration == SumDuration(table[i..]) && DaysExact(cal, t.days, table[i..])
    {
      AdjustRemoves(cal, t.days, table[i..]);
      assert table[i..][1..] == table[i + 1..] && table[i..][0] == rows[i];
      t := t.(duration := t.duration - rows[i].duration,
              days := AdjustStream(cal, t.days, rows[i].start, rows[i].start + rows[i].duration, -1));
      i := i + 1;
    }
    assert table == rows + table[|rows|..];
    SumsSplit(rows, table[|rows|..]);
  }
}
