/** Where the bytes are that a reader takes from a sample file while its recording is being written. */
module PipeDisk {
  import opened Base
  import opened RecentFrames
  import opened StreamState
  import opened Pipe
  import opened PipeInv
  import opened PipeWorker
  import opened PipeSafe
  import opened PipeRam
  import opened PartitionRange

  // -- rows ------------------------------------------------------------------------------------

  /** Every recording that has a row and was pushed since startup has its data in the row. */
  ghost predicate RowsHold(p: Pipe) {
    forall id | id in p.rows && id in p.hist :: p.rows[id].content == p.hist[id]
  }

  lemma RowsHoldStep(p: Pipe, ev: Event)
    requires Inv(p) && RowsHold(p) && Enabled(p, ev) && p.stream.queue.lastGop <= |p.stream.queue.frames| && Step(p, ev).Some?
    ensures RowsHold(Step(p, ev).value)
  {
    hide Inv, PushFrame, WorkerPrep, ApplyFlush, CommitTx, Ready;
    match ev
    case Push(sample, isKey, entry, wake) => RowsHoldPush(p, sample, isKey, entry);
    case PrepStep => WorkerRows(p);
    case Commit(gced) => RowsHoldCommit(p, gced);
    case Apply => ApplyRows(p);
    case _ =>
  }

  lemma RowsHoldPush(p: Pipe, sample: Bytes, isKey: bool, entry: int)
    requires Inv(p) && RowsHold(p) && PushFrame(p, sample, isKey, entry).Some?
    ensures RowsHold(PushFrame(p, sample, isKey, entry).value)
  {
    hide FramesOk, JobOk, FlushOk, PruneFront, MaybePrune, RecOk;
    forall id | id in p.rows ensures id < p.dbCum {
      assert RowOk(p.rows[id], id, p.files, p.dbCum);
    }
  }

  lemma WorkerRows(p: Pipe)
    requires p.job.Queued? && p.stream.queue.lastGop <= |p.stream.queue.frames| && WorkerPrep(p).Some?
    ensures WorkerPrep(p).value.rows == p.rows && WorkerPrep(p).value.hist == p.hist
  {
    hide Prep;
  }

  lemma ApplyRows(p: Pipe)
    requires p.flush.Committed? && ApplyFlush(p).Some?
    ensures ApplyFlush(p).value.rows == p.rows && ApplyFlush(p).value.hist == p.hist
  {
    hide MaybePrune, DeleteUntil, MarkCommitted;
  }

  lemma RowsHoldCommit(p: Pipe, gced: set<int>)
    requires Inv(p) && RowsHold(p) && p.flush.Gathered? && CommitTx(p, gced).Some?
    ensures RowsHold(CommitTx(p, gced).value)
  {
    hide Inv;
    InsertedHold(p.rows, p.flush.news, p.hist);
  }

  lemma {:induction false} InsertedHold(rows: map<int, Row>, news: seq<Rec>, hist: map<int, Bytes>)
    requires forall id | id in rows && id in hist :: rows[id].content == hist[id]
    ensures forall id | id in Inserted(rows, news, hist) && id in hist :: Inserted(rows, news, hist)[id].content == hist[id]
  {
    if news != [] {
      InsertedHold(rows, news[..|news| - 1], hist);
    }
  }

  lemma {:induction false} RowsHoldInRun(run: seq<Pipe>, moves: seq<Move>, k: nat)
    requires IsRun(run, moves) && k < |run|
    ensures RowsHold(run[k])
  {
    hide Inv, Step, Enabled, IsRun;
    RunStarts(run, moves);
    if k > 0 {
      StepOf(run, moves, k - 1);
      RowsHoldInRun(run, moves, k - 1);
      if moves[k - 1].Do? {
        RowsHoldStep(run[k - 1], moves[k - 1].event);
      }
    }
  }

  // -- what the file holds -----------------------------------------------------------------------

  /** The first n bytes of the recording are in its file. */
  ghost predicate OnDisk(p: Pipe, id: int, n: nat) {
    && id in p.hist && n <= |p.hist[id]|
    && (n > 0 ==> id in p.files && n <= |p.files[id].content| && p.files[id].content[..n] == p.hist[id][..n])
  }

  /** Nothing has gone wrong with the recording: it was not aborted and is not about to be, and it is not
      deleted. */
  ghost predicate Sound(p: Pipe, id: int) {
    && id in p.hist
    && (id in p.rows || (id >= p.stream.committed && InList(p.stream.recs, id)))
    && p.job != Queued(Some((id, Aborted))) && p.job != Doing(id, Abort)
  }

  predicate InList(recs: seq<Rec>, id: int) {
    exists i :: 0 <= i < |recs| && recs[i].id == id && !recs[i].deleted
  }

  /** How many bytes of a sound recording are known to be in its file. */
  function Done(p: Pipe, id: int): nat {
    if id in p.hist && (id in p.rows || id < p.stream.ws.id) then |p.hist[id]| else NextByte(p, id)
  }

  lemma FileHasDone(p: Pipe, id: int)
    requires Inv(p) && RowsHold(p) && Sound(p, id)
    ensures OnDisk(p, id, Done(p, id))
  {
    hide FramesOk, FlushOk;
    if id in p.rows {
      assert RowOk(p.rows[id], id, p.files, p.dbCum);
    } else {
      var i :| 0 <= i < |p.stream.recs| && p.stream.recs[i].id == id && !p.stream.recs[i].deleted;
      assert RecOk(p, i);
    }
  }

  // -- what RAM holds ----------------------------------------------------------------------------

  /** RAM holds a recording's bytes from some byte on. */
  lemma {:induction false} RamReaches(fs: seq<Frame>, hist: map<int, Bytes>, i: nat, id: int, b: nat)
    requires FramesMatch(fs, hist) && id in hist && i < |fs| && fs[i].recordingId == id && fs[i].start <= b < |hist[id]|
    ensures InRam(fs, id, b)
    decreases |fs| - i
  {
    assert FrameOk(fs, hist, i);
    if b < fs[i].start + |fs[i].sample| {
      assert Covers(fs[i], id, b);
    } else {
      assert FollowsAt(fs, i + 1);
      RamReaches(fs, hist, i + 1, id, b);
    }
  }

  /** What `PartitionRange` leaves to the file of a sound recording is in the file, as long as the next
      byte to be written is in RAM. */
  lemma DiskHasIt(p: Pipe, id: int, lo: nat, hi: nat, to: nat)
    requires Inv(p) && RowsHold(p) && Sound(p, id)
    requires Done(p, id) == |p.hist[id]| || InRam(p.stream.queue.frames, id, Done(p, id))
    requires lo <= to <= hi <= |p.hist[id]| && RamFirst(p.stream.queue.frames, id, lo, hi, to)
    ensures lo < to ==> OnDisk(p, id, to)
  {
    var fs, n := p.stream.queue.frames, Done(p, id);
    FileHasDone(p, id);
    if n < to {
      RamKeeps(p, id, lo, hi, to, n);
    }
    if 0 < to <= n {
      assert p.files[id].content[..to] == p.files[id].content[..n][..to] && p.hist[id][..to] == p.hist[id][..n][..to];
    }
  }

  lemma RamKeeps(p: Pipe, id: int, lo: nat, hi: nat, to: nat, n: nat)
    requires Inv(p) && id in p.hist && InRam(p.stream.queue.frames, id, n)
    requires lo <= to <= hi <= |p.hist[id]| && RamFirst(p.stream.queue.frames, id, lo, hi, to)
    ensures to <= Max(lo, n)
  {
    hide JobOk, FlushOk, DbOk, RecsOk;
    var fs := p.stream.queue.frames;
    var i :| 0 <= i < |fs| && Covers(fs[i], id, n);
    if n < lo < hi {
      RamReaches(fs, p.hist, i, id, lo);
      var j :| 0 <= j < |fs| && Covers(fs[j], id, lo);
      assert to <= Max(lo, fs[j].start);
    }
  }

  /** In every state of a run: what `PartitionRange` leaves to the file of a sound recording is in the
      file, or the worker has been more than 67,108,864 bytes behind in it. */
  lemma ReaderFinds(run: seq<Pipe>, moves: seq<Move>, k: nat, id: int, lo: nat, hi: nat, to: nat)
    requires IsRun(run, moves) && k < |run| && Sound(run[k], id)
    requires lo <= to <= hi <= |run[k].hist[id]| && RamFirst(run[k].stream.queue.frames, id, lo, hi, to)
    ensures (lo < to ==> OnDisk(run[k], id, to)) || exists j, b: nat :: 0 <= j < k && Overran(run[j], moves[j], id, b)
  {
    hide Inv, IsRun, InRam, RamFirst, OnDisk, RowsHold, FarBehind, Overran;
    RunInv(run, moves, k);
    RowsHoldInRun(run, moves, k);
    var p, n := run[k], Done(run[k], id);
    if n == |p.hist[id]| || InRam(p.stream.queue.frames, id, n) {
      DiskHasIt(p, id, lo, hi, to);
    } else {
      DoneIsNext(p, id);
      var j := LostInRun(run, moves, k, id, n);
    }
  }

  lemma DoneIsNext(p: Pipe, id: int)
    requires Inv(p) && id in p.hist && Done(p, id) != |p.hist[id]|
    ensures Done(p, id) < |p.hist[id]| && NotBefore(BytePos(id, Done(p, id)), Pos(p.stream.ws))
  {
    if id == p.stream.ws.id {
      WrittenFits(p);
    }
    hide FramesOk, DbOk, FlushOk, RecsOk, JobOk;
  }
}
