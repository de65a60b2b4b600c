/** Safety of one stream's recording pipeline over whole runs, crashes included. */
module PipeSafe {
  import opened Base
  import opened RecentFrames
  import opened StreamState
  import opened Pipe
  import opened PipeInv
  import opened PipeSteps
  import opened PipeWorker
  import opened PipeFlush

  // -- the remaining steps -----------------------------------------------------------------------

  /** The flusher takes the worker's position as its own. */
  lemma NotifySafe(p: Pipe)
    requires Inv(p) && p.flush.NoFlush?
    ensures Inv(p.(stream := p.stream.(flushReady := p.stream.ws.id)))
  {
    hide FramesOk, JobOk, DbOk;
    var q := p.(stream := p.stream.(flushReady := p.stream.ws.id));
    forall i | 0 <= i < |q.stream.recs| ensures RecOk(q, i) {
      assert RecOk(p, i);
    }
  }

  lemma PinSafe(p: Pipe, on: bool)
    requires Inv(p) && p.flush.NoFlush?
    ensures Inv(p.(stream := p.stream.(pinned := on)))
  {
    hide FramesOk, JobOk, DbOk;
    var q := p.(stream := p.stream.(pinned := on));
    forall i | 0 <= i < |q.stream.recs| ensures RecOk(q, i) {
      assert RecOk(p, i);
    }
  }

  lemma QueueDeleteSafe(p: Pipe, end: int)
    requires Inv(p) && p.flush.NoFlush? && end <= p.dbCum
    ensures Inv(p.(deleteEnd := Some(end)))
  {
    hide FramesOk, JobOk, DbOk;
    var q := p.(deleteEnd := Some(end));
    forall i | 0 <= i < |q.stream.recs| ensures RecOk(q, i) {
      assert RecOk(p, i);
    }
  }

  lemma FailSafe(p: Pipe)
    requires Inv(p) && p.flush.Gathered?
    ensures Inv(p.(flush := NoFlush))
  {
    hide FramesOk, JobOk, DbOk;
    var q := p.(flush := NoFlush);
    forall i | 0 <= i < |q.stream.recs| ensures RecOk(q, i) {
      assert RecOk(p, i);
    }
  }

  /** Unlinking an id handed to the pool, or at startup one that was never committed, harms nothing. */
  lemma UnlinkSafe(p: Pipe, id: int)
    requires Inv(p) && (id in p.handed || (p.hist == map[] && id >= p.dbCum))
    ensures Inv(p.(files := p.files - {id}))
  {
    hide FramesOk, Matches, NewsOk;
    var q := p.(files := p.files - {id});
    forall i | 0 <= i < |q.stream.recs| ensures RecOk(q, i) {
      assert RecOk(p, i);
    }
    assert RecsOk(q);
    forall k | k in q.rows ensures RowOk(q.rows[k], k, q.files, q.dbCum) {
      assert RowOk(p.rows[k], k, p.files, p.dbCum);
    }
  }

  // -- every step --------------------------------------------------------------------------------

  /** From any state that satisfies the invariant, whichever actor moves next, no assertion of the
      source fails and the invariant holds again. */
  lemma StepSafe(p: Pipe, ev: Event)
    requires Inv(p) && Enabled(p, ev) && p.stream.queue.lastGop <= |p.stream.queue.frames|
    ensures Step(p, ev).Some? && Inv(Step(p, ev).value)
  {
    hide Inv, PushFrame, CloseRec, WorkerPrep, WorkerIo, GatherStream, CommitTx, ApplyFlush, Wake;
    match ev
    case Push(sample, isKey, entry, wake) =>
      PushSafe(p, sample, isKey, entry);
      if wake.Some? {
        WakeSafe(PushFrame(p, sample, isKey, entry).value, wake.value);
      }
    case CloseRecording(sent) =>
      CloseSafe(p);
      WakeSafe(CloseRec(p).value, sent);
    case PrepStep => WorkerPrepSafe(p);
    case Io(result) => IoSafe(p, result);
    case Notify => NotifySafe(p);
    case Pin(on) => PinSafe(p, on);
    case QueueDelete(end) => QueueDeleteSafe(p, end);
    case Unlink(id) => UnlinkSafe(p, id);
    case Abandon(id) => UnlinkSafe(p, id);
    case Gather => GatherSafe(p);
    case Commit(gced) => CommitSafe(p, gced);
    case Fail => FailSafe(p);
    case Apply => ApplySafe(p);
  }

  /** A crash at any moment and the restart after it. */
  lemma CrashSafe(p: Pipe, files: map<int, File>)
    requires Inv(p) && Survives(p.files, files)
    ensures Inv(Restart(p, files))
  {
    hide FlushOk, RecsOk, JobOk;
    forall id | id in p.rows ensures RowOk(p.rows[id], id, files, p.dbCum) {
      assert RowOk(p.rows[id], id, p.files, p.dbCum);
    }
    RestartRest(p, files);
  }

  lemma RestartRest(p: Pipe, files: map<int, File>)
    requires p.dbCum >= 0
    ensures var q := Restart(p, files);
            RecsOk(q) && FlushOk(q) && CumsOk(q) && FramesOk(q.stream.queue, q.hist, First(q), Top(q)) && JobOk(q.job, q.stream.ws, q.hist, q.files, q.dbCum, First(q), q.stream.complete)
  {
  }

  /** A step of any actor, or a crash and the restart after it. */
  datatype Move = Do(event: Event) | Crash(files: map<int, File>)

  ghost predicate Moves(p: Pipe, m: Move, q: Pipe) {
    match m
    case Do(ev) => Enabled(p, ev) && p.stream.queue.lastGop <= |p.stream.queue.frames| && Step(p, ev) == Some(q)
    case Crash(files) => Survives(p.files, files) && q == Restart(p, files)
  }

  lemma MoveSafe(p: Pipe, m: Move, q: Pipe)
    requires Inv(p) && Moves(p, m, q)
    ensures Inv(q)
  {
    hide Inv, Step, Enabled, Survives;
    match m
    case Do(ev) => StepSafe(p, ev);
    case Crash(files) => CrashSafe(p, files);
  }

  // -- what the invariant says -------------------------------------------------------------------

  /** A flush that starts after a notification leaves a row for every recording that the worker has
      finished with and that is neither deleted nor queued for deletion; the rows that it adds are these
      recordings' own. */
  lemma FlushTakesAll(p: Pipe, gced: set<int>)
    requires Inv(p) && p.flush.NoFlush? && !p.stream.pinned && gced <= p.handed
    ensures p.stream.queue.lastGop <= |p.stream.queue.frames| && Step(p, Notify).Some?
    ensures var g := GatherStream(Step(p, Notify).value);
            && g.Some? && g.value.flush.Gathered? && CommitTx(g.value, gced).Some?
            && var q := CommitTx(g.value, gced).value;
               forall r | r in p.stream.recs && r.id < p.stream.ws.id && !r.deleted && (p.deleteEnd.Some? ==> r.id >= p.deleteEnd.value) ::
                 r.id in q.rows && r.id < q.dbCum && (r.id >= p.dbCum ==> q.rows[r.id] == Row(r.bytes, r.entry, Data(p, r.id)))
  {
    hide FramesOk, JobOk, DbOk, FlushOk, Inserted, Ready;
    NotifySafe(p);
    var n := Step(p, Notify).value;
    GatherSafe(n);
    var g := GatherStream(n).value;
    ReadyHas(n.stream.recs, n.stream.committed, n.stream.flushReady);
    CommitSafe(g, gced);
    CommitInserts(g, gced);
    NewsBelow(g);
    forall r | r in p.stream.recs && r.id < p.stream.ws.id && !r.deleted && (p.deleteEnd.Some? ==> r.id >= p.deleteEnd.value)
      ensures var q := CommitTx(g, gced).value;
              r.id in q.rows && r.id < q.dbCum && (r.id >= p.dbCum ==> q.rows[r.id] == Row(r.bytes, r.entry, Data(p, r.id)))
    {
      var i :| 0 <= i < |p.stream.recs| && p.stream.recs[i] == r;
      assert RecOk(p, i);
      assert r.id >= p.dbCum ==> r in g.flush.news;
    }
  }

  lemma NewsBelow(p: Pipe)
    requires Inv(p) && p.flush.Gathered?
    ensures forall r | r in p.flush.news :: r.id < CumOf(p.flush.news, p.stream.committed)
    ensures CumOf(p.flush.news, p.stream.committed) >= p.stream.committed && p.stream.committed == p.dbCum
    ensures p.flush.end == p.deleteEnd
  {
    hide FramesOk, JobOk, DbOk, RecsOk, Matches;
  }

  /** Every row's file was completely written and synced with exactly that row's bytes, and still is
      after a crash. */
  lemma RowsAreStored(p: Pipe, files: map<int, File>)
    requires Inv(p) && Survives(p.files, files)
    ensures forall id | id in p.rows :: id in files && files[id].content == p.rows[id].content && |files[id].content| == p.rows[id].bytes
    ensures forall id | id in p.rows :: id !in p.garbage
  {
    hide FramesOk, RecsOk, FlushOk, JobOk;
    forall id | id in p.rows ensures id in files && files[id].content == p.rows[id].content && |files[id].content| == p.rows[id].bytes {
      assert RowOk(p.rows[id], id, p.files, p.dbCum);
    }
  }

  /** Whenever the worker's file is in its state, it holds exactly the first `written` bytes of the
      recording. */
  lemma FileIsPrefix(p: Pipe)
    requires Inv(p) && p.stream.ws.file
    ensures var id, n := p.stream.ws.id, p.stream.ws.written;
            id in p.files && id in p.hist && n <= |p.hist[id]| && p.files[id].content == p.hist[id][..n]
  {
    hide FramesOk, RecsOk, FlushOk, DbOk;
  }

  /** The growing recording, if any, was abandoned by the worker. */
  predicate GrowingAbandoned(p: Pipe) {
    p.stream.recs != [] && p.stream.recs[|p.stream.recs| - 1].growing && p.stream.recs[|p.stream.recs| - 1].deleted
  }

  /** The documented order of the counters: its last part fails exactly while a growing recording has
      been abandoned, and then by one. */
  lemma WorkerPosition(p: Pipe)
    requires Inv(p)
    ensures p.stream.ws.id <= p.stream.complete + 1
    ensures p.stream.ws.id > p.stream.complete <==> GrowingAbandoned(p)
  {
    hide FramesOk, FlushOk, DbOk, JobOk;
    if p.stream.recs != [] {
      assert RecOk(p, |p.stream.recs| - 1);
    }
  }

  /** `committed.cum_recordings <= flush_ready <= writer_state.recording_id`. */
  predicate Ordered(s: Stream) {
    s.committed <= s.flushReady <= s.ws.id
  }

  /** The rest of the documented order does not hold from the start: after a restart with recordings the
      worker's position is 0 (see `Restart`), and the flusher then takes it as its own. Once the order
      holds it stays. */
  lemma OrderStays(p: Pipe, ev: Event)
    requires Inv(p) && Enabled(p, ev) && p.stream.queue.lastGop <= |p.stream.queue.frames|
    requires Ordered(p.stream) && Step(p, ev).Some?
    ensures Ordered(Step(p, ev).value.stream)
  {
    hide Inv, PushFrame, CloseRec, WorkerPrep, ApplyFlush, WorkerIo, CommitTx, GatherStream;
    match ev
    case Push(sample, isKey, entry, wake) => PushKeepsCounters(p, sample, isKey, entry);
    case CloseRecording(_) => CloseKeepsCounters(p);
    case PrepStep => PrepAdvances(p.stream, p.job.last); PrepKeepsCounters(p);
    case Apply => ApplyCounters(p);
    case _ => OthersKeepCounters(p, ev);
  }

  lemma OthersKeepCounters(p: Pipe, ev: Event)
    requires Enabled(p, ev) && p.stream.queue.lastGop <= |p.stream.queue.frames| && Step(p, ev).Some?
    requires !ev.Push? && !ev.CloseRecording? && !ev.PrepStep? && !ev.Apply?
    ensures var s := Step(p, ev).value.stream;
            s.committed == p.stream.committed && s.ws == p.stream.ws && (s.flushReady == p.stream.flushReady || s.flushReady == s.ws.id)
  {
    hide PruneFront, MaybePrune, Prep, Ready, Inserted, ApplyFlush;
  }

  predicate SameCounters(s: Stream, t: Stream) {
    t.flushReady == s.flushReady && t.committed == s.committed && t.ws.id == s.ws.id
  }

  lemma PushKeepsCounters(p: Pipe, sample: Bytes, isKey: bool, entry: int)
    requires p.stream.queue.lastGop <= |p.stream.queue.frames| && PushFrame(p, sample, isKey, entry).Some?
    ensures SameCounters(p.stream, PushFrame(p, sample, isKey, entry).value.stream)
  {
    hide PruneFront;
  }

  lemma CloseKeepsCounters(p: Pipe)
    requires p.writer.Some? && CloseRec(p).Some?
    ensures SameCounters(p.stream, CloseRec(p).value.stream)
  {
  }

  predicate Advances(s: Stream, t: Stream) {
    t.flushReady == s.flushReady && t.committed == s.committed && t.ws.id >= s.ws.id
  }

  lemma PassAdvances(s: Stream, last: Option<(int, Outcome)>)
    requires s.queue.lastGop <= |s.queue.frames|
    ensures !OnePass(s, last).Panic? ==> Advances(s, OnePass(s, last).s)
  {
    hide TakeOutcome, Examine;
    match last {
      case None =>
        ExamineAdvances(s);
      case Some(l) =>
        OutcomeAdvances(s, l.0, l.1);
        match TakeOutcome(s, l.0, l.1) {
          case Idle(t) => ExamineAdvances(t);
          case _ =>
        }
    }
  }

  lemma OutcomeAdvances(s: Stream, id: int, outcome: Outcome)
    requires s.queue.lastGop <= |s.queue.frames|
    ensures !TakeOutcome(s, id, outcome).Panic? ==> Advances(s, TakeOutcome(s, id, outcome).s)
  {
    hide PruneFront, MaybePrune, Partition;
    match outcome {
      case Aborted =>
        var i := Partition(s.recs, s.ws.id);
        var found := i < |s.recs| && s.recs[i].id == id;
        var next := MoveOn(s.(recs := if found then MarkDeleted(s.recs, i) else s.recs), id);
        PruneKeepsCounters(next.(queue := PruneFront(next.queue, Pos(next.ws))));
      case _ =>
    }
  }

  lemma ExamineAdvances(s: Stream)
    ensures !Examine(s).Panic? ==> Advances(s, Examine(s).s)
  {
    hide PrepareWrite;
  }

  lemma {:induction false} PrepAdvances(s: Stream, last: Option<(int, Outcome)>)
    requires s.queue.lastGop <= |s.queue.frames|
    ensures !Prep(s, last).Panic? ==> Advances(s, Prep(s, last).s)
    decreases if last.Some? then 1 else 0, |s.recs| - Partition(s.recs, s.ws.id)
  {
    hide OnePass;
    PassAdvances(s, last);
    match OnePass(s, last)
    case Again(t) => PrepAdvances(t, None);
    case done =>
  }

  lemma PrepKeepsCounters(p: Pipe)
    requires p.job.Queued? && p.stream.queue.lastGop <= |p.stream.queue.frames| && WorkerPrep(p).Some?
    requires !Prep(p.stream, p.job.last).Panic? ==> Advances(p.stream, Prep(p.stream, p.job.last).s)
    ensures Advances(p.stream, WorkerPrep(p).value.stream)
  {
    hide Prep;
  }

  lemma ApplyCounters(p: Pipe)
    requires Inv(p) && p.flush.Committed? && !DeletesAborted(p) && ApplyFlush(p).Some? && Ordered(p.stream)
    ensures Ordered(ApplyFlush(p).value.stream)
  {
    hide FramesOk, JobOk, DbOk, RecsOk, ApplyFlush, DeletesAborted, MaybePrune;
    var marked := ApplyMarks(p);
    PruneKeepsCounters(Marked(p, marked).stream);
  }

  lemma PruneKeepsCounters(s: Stream)
    ensures SameCounters(s, MaybePrune(s))
  {
  }

  // -- listings ----------------------------------------------------------------------------------

  /** What `list_recordings_by_id` reports: rows before the oldest recording in RAM, then the
      recordings in RAM that are not deleted. */
  ghost predicate Listed(p: Pipe, id: int) {
    var s := p.stream;
    var min := if s.recs == [] then s.committed else s.recs[0].id;
    || (id < min && id in p.rows)
    || exists i :: 0 <= i < |s.recs| && s.recs[i].id == id && !s.recs[i].deleted
  }

  /** Outside a flush that is every row, and every recording in RAM that was not aborted or deleted. */
  lemma ListingIsComplete(p: Pipe, id: int)
    requires Inv(p) && !p.flush.Committed?
    ensures id in p.rows ==> Listed(p, id)
    ensures Listed(p, id) ==> id in p.rows || (id >= p.dbCum && id in p.hist)
  {
    hide FramesOk, JobOk, FlushOk;
    var s := p.stream;
    if s.recs != [] {
      assert RecOk(p, 0);
    }
    if First(p) <= id < Top(p) {
      assert RecOk(p, id - First(p));
    }
    if id in p.rows {
      assert RowOk(p.rows[id], id, p.files, p.dbCum);
    }
    if exists i :: 0 <= i < |s.recs| && s.recs[i].id == id && !s.recs[i].deleted {
      var i :| 0 <= i < |s.recs| && s.recs[i].id == id && !s.recs[i].deleted;
      assert RecOk(p, i);
    }
  }
}
