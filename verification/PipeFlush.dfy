/** The flush: what it gathers, inserts and marks. */
module PipeFlush {
  import opened Base
  import opened StreamState
  import opened Pipe
  import opened PipeInv

  // -- gather ------------------------------------------------------------------------------------

  ghost predicate Increasing(recs: seq<Rec>) {
    forall i, j | 0 <= i < j < |recs| :: recs[i].id < recs[j].id
  }

  lemma IdsIncrease(p: Pipe)
    requires RecsOk(p)
    ensures Increasing(p.stream.recs)
  {
    forall i, j | 0 <= i < j < |p.stream.recs| ensures p.stream.recs[i].id < p.stream.recs[j].id {
      assert RecOk(p, i) && RecOk(p, j);
    }
  }

  /** The flush gathers in order, so the last id is the largest. */
  lemma {:induction false} LastIsLargest(recs: seq<Rec>, committed: int, end: int)
    requires Increasing(recs)
    ensures forall r | r in Ready(recs, committed, end) :: r.id < CumOf(Ready(recs, committed, end), committed)
  {
    if recs != [] {
      LastIsLargest(recs[1..], committed, end);
      ReadyHas(recs[1..], committed, end);
      var rest := Ready(recs[1..], committed, end);
      var all := Ready(recs, committed, end);
      forall r | r in rest ensures recs[0].id < r.id {
        assert r in recs[1..];
      }
      if rest != [] {
        assert all[|all| - 1] == rest[|rest| - 1];
      }
    }
  }

  /** No assertion of the gathering loop fails. */
  lemma GatherAsserts(p: Pipe)
    requires RecsOk(p)
    ensures GatherStream(p).Some?
  {
    hide Ready;
    var s := p.stream;
    forall i | 0 <= i < |s.recs| && s.committed <= s.recs[i].id < s.flushReady ensures s.recs[i].uncommitted {
      assert RecOk(p, i);
    }
  }

  lemma GatherKeepsFlush(p: Pipe)
    requires Inv(p) && p.flush.NoFlush? && !p.stream.pinned && GatherStream(p).Some?
    ensures FlushOk(GatherStream(p).value)
  {
    hide FramesOk, JobOk, DbOk, RecOk, Ready;
    var s := p.stream;
    IdsIncrease(p);
    LastIsLargest(s.recs, s.committed, s.flushReady);
    ReadyHas(s.recs, s.committed, s.flushReady);
    var news := Ready(s.recs, s.committed, s.flushReady);
    if news != [] {
      assert news[|news| - 1] in news;
    }
  }

  lemma GatherSafe(p: Pipe)
    requires Inv(p) && p.flush.NoFlush? && !p.stream.pinned
    ensures GatherStream(p).Some? && Inv(GatherStream(p).value)
  {
    hide FramesOk, JobOk, DbOk, FlushOk, Ready;
    GatherAsserts(p);
    GatherKeepsFlush(p);
    var q := GatherStream(p).value;
    forall j | 0 <= j < |q.stream.recs| ensures RecOk(q, j) {
      assert RecOk(p, j);
    }
  }

  // -- commit ------------------------------------------------------------------------------------

  lemma {:induction false} InsertedIs(rows: map<int, Row>, news: seq<Rec>, hist: map<int, Bytes>, id: int)
    ensures id in Inserted(rows, news, hist) <==> id in rows || exists r :: r in news && r.id == id
    ensures id in Inserted(rows, news, hist) ==>
      || (id in rows && Inserted(rows, news, hist)[id] == rows[id])
      || exists r :: r in news && r.id == id && Inserted(rows, news, hist)[id] == Row(r.bytes, r.entry, if id in hist then hist[id] else [])
  {
    if news != [] {
      var r, before := news[|news| - 1], news[..|news| - 1];
      InsertedIs(rows, before, hist, id);
      assert news == before + [r] && r in news;
      assert forall x | x in before :: x in news;
    }
  }

  /** What the flush relies on for each recording that it inserts. */
  ghost predicate NewRowOk(p: Pipe, r: Rec) {
    && !r.growing && !r.deleted && r.uncommitted
    && p.dbCum <= r.id < p.stream.ws.id && r.id < p.stream.complete
    && Stored(p.hist, p.files, r.id) && |p.hist[r.id]| == r.bytes
  }

  /** Only complete, synced, unaborted recordings are inserted, and none twice. */
  lemma NewsAreComplete(p: Pipe)
    requires Inv(p) && p.flush.Gathered?
    ensures forall r | r in p.flush.news :: NewRowOk(p, r) && r.id !in p.rows
  {
    hide FramesOk, JobOk;
    forall r | r in p.flush.news ensures NewRowOk(p, r) && r.id !in p.rows {
      var i :| 0 <= i < |p.stream.recs| && p.stream.recs[i] == r;
      assert RecOk(p, i);
    }
  }

  lemma CommitKeepsRecs(p: Pipe, gced: set<int>)
    requires Inv(p) && p.flush.Gathered? && gced <= p.handed
    requires CommitTx(p, gced).Some?
    ensures RecsOk(CommitTx(p, gced).value)
  {
    hide FramesOk, JobOk, Inserted;
    var q := CommitTx(p, gced).value;
    var rows := Inserted(p.rows, p.flush.news, p.hist);
    forall i | 0 <= i < |q.stream.recs| ensures RecOk(q, i) {
      assert RecOk(p, i);
      var r := p.stream.recs[i];
      InsertedIs(p.rows, p.flush.news, p.hist, r.id);
      if exists x :: x in p.flush.news && x.id == r.id {
        SameRec(p, i);
      }
      if r.id < q.dbCum && r.id >= p.dbCum && !r.deleted {
        assert r in p.flush.news;
      }
    }
  }

  lemma SameRec(p: Pipe, i: nat)
    requires Inv(p) && p.flush.Gathered? && i < |p.stream.recs|
    ensures forall x | x in p.flush.news && x.id == p.stream.recs[i].id :: x == p.stream.recs[i]
  {
    hide FramesOk, JobOk, DbOk;
    forall x | x in p.flush.news && x.id == p.stream.recs[i].id ensures x == p.stream.recs[i] {
      var j :| 0 <= j < |p.stream.recs| && p.stream.recs[j] == x;
      assert RecOk(p, i) && RecOk(p, j);
    }
  }

  lemma CommitKeepsDb(p: Pipe, gced: set<int>)
    requires Inv(p) && p.flush.Gathered? && gced <= p.handed
    requires CommitTx(p, gced).Some?
    ensures var q := CommitTx(p, gced).value;
            DbOk(q.rows, q.files, q.garbage, q.handed, q.dbCum, q.stream.committed)
  {
    hide FramesOk, JobOk, Inserted;
    var q := CommitTx(p, gced).value;
    NewsAreComplete(p);
    forall id | id in q.rows ensures RowOk(q.rows[id], id, q.files, q.dbCum) && id !in q.garbage && id !in q.handed {
      InsertedIs(p.rows, p.flush.news, p.hist, id);
      if id in p.rows {
        assert RowOk(p.rows[id], id, p.files, p.dbCum);
      }
    }
    forall id | id in q.garbage ensures id < q.dbCum {
      InsertedIs(p.rows, p.flush.news, p.hist, id);
    }
  }

  lemma CommitSafe(p: Pipe, gced: set<int>)
    requires Inv(p) && p.flush.Gathered? && gced <= p.handed
    ensures CommitTx(p, gced).Some? && Inv(CommitTx(p, gced).value)
  {
    hide FramesOk, DbOk, Inserted, RecOk, WaitingOk, OutcomeOk, StepOk;
    NewsAreComplete(p);
    if p.flush.news != [] {
      assert p.flush.news[|p.flush.news| - 1] in p.flush.news;
    }
    CommitKeepsRecs(p, gced);
    CommitKeepsDb(p, gced);
    CommitKeepsJob(p, CumOf(p.flush.news, p.dbCum));
  }

  /** The new count is at most the worker's position. */
  lemma CommitKeepsJob(p: Pipe, cum: int)
    requires cum <= p.stream.ws.id || cum == p.dbCum
    requires JobOk(p.job, p.stream.ws, p.hist, p.files, p.dbCum, First(p), p.stream.complete)
    ensures JobOk(p.job, p.stream.ws, p.hist, p.files, cum, First(p), p.stream.complete)
  {
  }

  /** The transaction's effect on the table: the gathered recordings come in with their own sizes and
      bytes, the queued range goes out to the garbage table, nothing else changes. */
  lemma CommitInserts(p: Pipe, gced: set<int>)
    requires Inv(p) && p.flush.Gathered? && CommitTx(p, gced).Some?
    ensures var rows := CommitTx(p, gced).value.rows;
            && (forall r | r in p.flush.news :: r.id in rows && rows[r.id] == Row(r.bytes, r.entry, Data(p, r.id)))
            && (forall id | id in p.rows :: id in rows <==> p.flush.end.None? || id >= p.flush.end.value)
            && (forall id | id in rows :: (id in p.rows && rows[id] == p.rows[id]) || exists r :: r in p.flush.news && r.id == id)
            && (forall id | id in p.rows && id !in rows :: id in CommitTx(p, gced).value.garbage)
            && p.garbage - gced <= CommitTx(p, gced).value.garbage
  {
    hide FramesOk, JobOk, Inserted, FlushOk, DbOk, RecsOk;
    NewsAreComplete(p);
    EndIsOld(p);
    var rows := CommitTx(p, gced).value.rows;
    forall r | r in p.flush.news ensures r.id in rows && rows[r.id] == Row(r.bytes, r.entry, Data(p, r.id)) {
      InsertedIs(p.rows, p.flush.news, p.hist, r.id);
      OneOfEach(p, r);
    }
    forall id
      ensures id in p.rows ==> (id in rows <==> p.flush.end.None? || id >= p.flush.end.value)
      ensures id in p.rows && id !in rows ==> id in CommitTx(p, gced).value.garbage
    {
      InsertedIs(p.rows, p.flush.news, p.hist, id);
    }
    forall id | id in rows ensures (id in p.rows && rows[id] == p.rows[id]) || exists r :: r in p.flush.news && r.id == id {
      InsertedIs(p.rows, p.flush.news, p.hist, id);
    }
  }

  lemma EndIsOld(p: Pipe)
    requires Inv(p) && p.flush.Gathered?
    ensures p.flush.end.Some? ==> p.flush.end.value <= p.dbCum
  {
    hide FramesOk, JobOk, DbOk, RecsOk;
  }

  lemma OneOfEach(p: Pipe, r: Rec)
    requires Inv(p) && p.flush.Gathered? && r in p.flush.news
    ensures forall x | x in p.flush.news && x.id == r.id :: x == r
  {
    hide FramesOk, JobOk, DbOk, RecsOk;
    var i :| 0 <= i < |p.stream.recs| && p.stream.recs[i] == r;
    SameRec(p, i);
  }

  // -- apply -------------------------------------------------------------------------------------

  lemma DeletedRange(p: Pipe, end: int)
    requires Inv(p) && end <= p.stream.committed
    ensures forall i | 0 <= i < |p.stream.recs| :: i < Partition(p.stream.recs, end) <==> p.stream.recs[i].id < end
    ensures forall i | 0 <= i < |p.stream.recs| && p.stream.recs[i].id < end && p.stream.recs[i].uncommitted :: p.stream.recs[i].deleted
  {
    hide FramesOk, JobOk, DbOk, FlushOk;
    IdsIncrease(p);
    var k := Partition(p.stream.recs, end);
    forall i | 0 <= i < |p.stream.recs| ensures i < k <==> p.stream.recs[i].id < end {
      assert RecOk(p, i);
    }
    forall i | 0 <= i < |p.stream.recs| && p.stream.recs[i].id < end && p.stream.recs[i].uncommitted ensures p.stream.recs[i].deleted {
      assert RecOk(p, i);
    }
  }

  lemma UncommittedFrom(p: Pipe)
    requires RecsOk(p)
    ensures forall i | 0 <= i < |p.stream.recs| && p.stream.recs[i].id >= p.stream.committed :: p.stream.recs[i].uncommitted
  {
    forall i | 0 <= i < |p.stream.recs| && p.stream.recs[i].id >= p.stream.committed ensures p.stream.recs[i].uncommitted {
      assert RecOk(p, i);
    }
  }

  /** `delete_until` panics exactly when the range that was deleted holds an aborted recording that is
      still in RAM; the marking loop's assertion always holds. */
  lemma DeleteUntilPanics(p: Pipe)
    requires Inv(p) && p.flush.Committed?
    ensures ApplyFlush(p).None? <==> DeletesAborted(p)
  {
    hide FramesOk, JobOk, DbOk, MaybePrune, RecOk, Partition, CumOf, Matches, NewsOk, DeleteUntil, MarkCommitted;
    UncommittedFrom(p);
    if p.flush.end.Some? {
      DeletedRange(p, p.flush.end.value);
    }
  }

  /** The recordings that `ApplyFlush` leaves, before pruning. */
  ghost predicate Marks(p: Pipe, marked: seq<Rec>) {
    && p.flush.Committed? && |marked| == |p.stream.recs|
    && forall i | 0 <= i < |marked| :: MarkedAs(p, p.stream.recs[i], marked[i])
  }

  /** A recording is deleted if its row was, committed if it was inserted, and otherwise as before. */
  ghost predicate MarkedAs(p: Pipe, r: Rec, marked: Rec)
    requires p.flush.Committed?
  {
    marked == if p.flush.end.Some? && r.id < p.flush.end.value then r.(deleted := true)
              else if r in p.flush.news then r.(uncommitted := false)
              else r
  }

  function Marked(p: Pipe, marked: seq<Rec>): Pipe
    requires p.flush.Committed?
  {
    p.(stream := p.stream.(recs := marked, committed := p.dbCum), handed := p.handed + p.flush.gone,
       deleteEnd := None, flush := NoFlush)
  }

  /** Both loops' effect on one recording. */
  lemma OneMarked(p: Pipe, i: nat, r: Rec, marked: Rec)
    requires Inv(p) && p.flush.Committed? && i < |p.stream.recs|
    requires r == if p.flush.end.Some? && p.stream.recs[i].id < p.flush.end.value then p.stream.recs[i].(deleted := true) else p.stream.recs[i]
    requires marked == if IsReady(r, p.stream.committed, p.dbCum) then r.(uncommitted := false) else r
    ensures MarkedAs(p, p.stream.recs[i], marked)
  {
    hide FramesOk, JobOk, DbOk, RecOk, NewsOk;
    var s := p.stream;
    assert s.recs[i] in s.recs;
    assert s.recs[i] in p.flush.news <==> IsReady(s.recs[i], s.committed, p.dbCum);
  }

  /** The recordings marked committed in memory are exactly those that the transaction inserted. */
  lemma ApplyMarks(p: Pipe) returns (marked: seq<Rec>)
    requires Inv(p) && p.flush.Committed? && !DeletesAborted(p)
    ensures Marks(p, marked) && ApplyFlush(p).Some?
    ensures p.flush.news != [] || p.flush.end.Some? ==> ApplyFlush(p).value == Marked(p, marked).(stream := MaybePrune(Marked(p, marked).stream))
    ensures p.flush.news == [] && p.flush.end.None? ==> ApplyFlush(p).value == p.(flush := NoFlush)
  {
    hide FramesOk, JobOk, DbOk, MaybePrune, RecsOk, DeletesAborted, DeleteUntil, MarkCommitted, MarkedAs, Matches, NewsOk, Partition;
    DeleteUntilPanics(p);
    assert RecsOk(p);
    var s, end := p.stream, p.flush.end;
    var recs := s.recs;
    if end.Some? {
      DeletedRange(p, end.value);
      if p.flush.news != [] || end.Some? {
        recs := DeleteUntil(s.recs, end.value).value;
      }
    }
    var cum := CumOf(p.flush.news, s.committed);
    if p.flush.news != [] || end.Some? {
      marked := MarkCommitted(recs, s.committed, cum).value;
      forall i | 0 <= i < |marked| ensures MarkedAs(p, s.recs[i], marked[i]) {
        OneMarked(p, i, recs[i], marked[i]);
      }
    } else {
      marked := s.recs;
      forall i | 0 <= i < |marked| ensures MarkedAs(p, s.recs[i], marked[i]) {
        NotGathered(p, i);
      }
    }
  }

  lemma NotGathered(p: Pipe, i: nat)
    requires p.flush.Committed? && p.flush.news == [] && p.flush.end.None? && i < |p.stream.recs|
    ensures MarkedAs(p, p.stream.recs[i], p.stream.recs[i])
  {
  }

  lemma MarkedSafe(p: Pipe, marked: seq<Rec>)
    requires Inv(p) && Marks(p, marked)
    ensures Inv(Marked(p, marked))
  {
    hide FramesOk, JobOk;
    var q := Marked(p, marked);
    forall i | 0 <= i < |marked| ensures RecOk(q, i) {
      assert RecOk(p, i) && MarkedAs(p, p.stream.recs[i], marked[i]);
      assert p.stream.recs[i] in p.flush.news <==> IsReady(p.stream.recs[i], p.stream.committed, p.dbCum);
    }
  }

  lemma ApplySafe(p: Pipe)
    requires Inv(p) && p.flush.Committed? && !DeletesAborted(p)
    ensures ApplyFlush(p).Some? && Inv(ApplyFlush(p).value)
  {
    hide Inv, ApplyFlush, DeletesAborted, MaybePrune;
    var marked := ApplyMarks(p);
    MarkedSafe(p, marked);
    MaybePruneSafe(Marked(p, marked));
    if p.flush.news == [] && p.flush.end.None? {
      NothingApplied(p, marked);
    }
  }

  lemma NothingApplied(p: Pipe, marked: seq<Rec>)
    requires Inv(p) && Marks(p, marked) && p.flush.news == [] && p.flush.end.None?
    ensures Inv(p.(flush := NoFlush))
  {
    hide FramesOk, JobOk, DbOk;
    var q := p.(flush := NoFlush);
    forall i | 0 <= i < |p.stream.recs| ensures RecOk(q, i) {
      assert RecOk(p, i);
    }
  }
}
