/** The directory worker: what it writes is the recording, and its steps keep the invariant. */
module PipeWorker {
  import opened Base
  import opened RecentFrames
  import opened StreamState
  import opened Pipe
  import opened PipeInv

  // -- prepare_write -----------------------------------------------------------------------------

  ghost predicate FramesMatch(fs: seq<Frame>, hist: map<int, Bytes>) {
    Contiguous(fs) && forall i | 0 <= i < |fs| :: FrameOk(fs, hist, i)
  }

  /** The frame holds the recording's byte at `pos`. */
  predicate Covers(f: Frame, id: int, pos: nat) {
    f.recordingId == id && f.start <= pos < f.start + |f.sample|
  }

  /** Within a recording later frames start where earlier ones have ended. */
  lemma {:induction false} StartsAfter(fs: seq<Frame>, i: nat, j: nat)
    requires Contiguous(fs) && i < j < |fs| && fs[i].recordingId == fs[j].recordingId
    ensures fs[i].start + |fs[i].sample| <= fs[j].start
  {
    assert FollowsAt(fs, j);
    if i < j - 1 {
      EndsIncrease(fs, i, j - 1);
      EndsIncrease(fs, j - 1, j);
      StartsAfter(fs, i, j - 1);
    }
  }

  /** Up to `room` frames from the i-th on are the recording's data from where the one before ends. */
  lemma {:induction false} ChunksAre(fs: seq<Frame>, hist: map<int, Bytes>, i: nat, id: int, room: nat, start: nat)
    requires FramesMatch(fs, hist) && 0 < i <= |fs|
    requires fs[i - 1].recordingId == id && fs[i - 1].start + |fs[i - 1].sample| == start
    ensures var chunks := ChunksFrom(fs, i, id, room);
            && id in hist && At(hist[id], start, Flatten(chunks))
            && (|chunks| < room ==> start + |Flatten(chunks)| == |hist[id]|)
    decreases room
  {
    assert FrameOk(fs, hist, i - 1);
    if i < |fs| && fs[i].recordingId == id && room > 0 {
      assert FrameOk(fs, hist, i) && FollowsAt(fs, i);
      hide FramesMatch;
      var f := fs[i];
      ChunksAre(fs, hist, i + 1, id, room - 1, start + |f.sample|);
      var rest := ChunksFrom(fs, i + 1, id, room - 1);
      assert ([f.sample] + rest)[1..] == rest;
      Joined(hist[id], start, f.sample, Flatten(rest));
    }
  }

  lemma Joined(data: Bytes, i: nat, a: Bytes, b: Bytes)
    requires At(data, i, a) && At(data, i + |a|, b)
    ensures At(data, i, a + b)
  {
    assert data[i..i + |a + b|] == data[i..i + |a|] + data[i + |a|..i + |a| + |b|];
  }

  lemma AtTail(data: Bytes, i: nat, a: Bytes, k: nat)
    requires At(data, i, a) && k <= |a|
    ensures At(data, i + k, a[k..])
  {
    assert a == a[..k] + a[k..];
    AtSplit(data, i, a[..k], a[k..]);
  }

  /** `prepare_write` returns the recording's data from `written` on: up to the end, or 32 chunks. It
      gives up exactly when the next byte is no longer in RAM. */
  lemma PrepareWriteExact(r: Rec, fs: seq<Frame>, hist: map<int, Bytes>, written: nat)
    requires FramesMatch(fs, hist) && r.id in hist && |hist[r.id]| == r.bytes && written <= r.bytes
    ensures var chunks := PrepareWrite(r, fs, written);
            && (chunks.None? <==> written < r.bytes && forall i | 0 <= i < |fs| :: !Covers(fs[i], r.id, written))
            && (chunks.Some? ==> ChunksExact(hist[r.id], written, chunks.value))
  {
    var k := Skip(fs, BytePos(r.id, written));
    if k < |fs| {
      assert FrameOk(fs, hist, k);
    }
    if k < |fs| && fs[k].recordingId == r.id {
      if fs[k].start <= written {
        assert Covers(fs[k], r.id, written);
        FirstChunk(r, fs, hist, written, k);
      } else {
        NoneCovers(fs, r.id, written, k);
      }
    } else {
      NoneCovers(fs, r.id, written, k);
    }
  }

  ghost predicate ChunksExact(data: Bytes, written: nat, chunks: seq<Bytes>) {
    && |chunks| <= MAX_CHUNKS && (forall i | 0 <= i < |chunks| :: chunks[i] != [])
    && At(data, written, Flatten(chunks))
    && (|chunks| < MAX_CHUNKS ==> written + |Flatten(chunks)| == |data|)
  }

  lemma NoneCovers(fs: seq<Frame>, id: int, written: nat, k: nat)
    requires Contiguous(fs) && FirstAfter(fs, BytePos(id, written), k)
    requires k < |fs| ==> fs[k].recordingId != id || written < fs[k].start
    ensures forall i | 0 <= i < |fs| :: !Covers(fs[i], id, written)
  {
    forall i | 0 <= i < |fs| ensures !Covers(fs[i], id, written) {
      if k < i {
        EndsIncrease(fs, k, i);
        if fs[i].recordingId == fs[k].recordingId {
          StartsAfter(fs, k, i);
        }
      }
    }
  }

  lemma FrameIs(fs: seq<Frame>, hist: map<int, Bytes>, k: nat)
    requires FramesMatch(fs, hist) && k < |fs|
    ensures fs[k].recordingId in hist && At(hist[fs[k].recordingId], fs[k].start, fs[k].sample)
  {
    assert FrameOk(fs, hist, k);
  }

  lemma FlattenFirst(a: Bytes, rest: seq<Bytes>)
    ensures Flatten([a] + rest) == a + Flatten(rest)
  {
    assert ([a] + rest)[1..] == rest;
  }

  lemma NoneEmpty(fs: seq<Frame>, hist: map<int, Bytes>, k: nat, id: int, room: nat)
    requires FramesMatch(fs, hist) && k <= |fs|
    ensures forall i | 0 <= i < |ChunksFrom(fs, k, id, room)| :: ChunksFrom(fs, k, id, room)[i] != []
  {
    var rest := ChunksFrom(fs, k, id, room);
    forall i | 0 <= i < |rest| ensures rest[i] != [] {
      assert fs[k + i].sample != [];
    }
  }

  lemma FirstChunk(r: Rec, fs: seq<Frame>, hist: map<int, Bytes>, written: nat, k: nat)
    requires FramesMatch(fs, hist) && r.id in hist && k < |fs| && Covers(fs[k], r.id, written)
    ensures ChunksExact(hist[r.id], written,
                        [fs[k].sample[written - fs[k].start..]] + ChunksFrom(fs, k + 1, r.id, MAX_CHUNKS - 1))
  {
    hide FramesMatch, ChunksFrom, ChunksExact, At, ChunksRest;
    FrameIs(fs, hist, k);
    RestChunks(fs, hist, k);
    FirstAndRest(hist[r.id], fs[k].start, fs[k].sample, written - fs[k].start, ChunksFrom(fs, k + 1, r.id, MAX_CHUNKS - 1));
  }

  /** Chunks that follow the first one, from `at` on. */
  ghost predicate ChunksRest(data: Bytes, at: nat, rest: seq<Bytes>) {
    && At(data, at, Flatten(rest)) && |rest| < MAX_CHUNKS && (forall i | 0 <= i < |rest| :: rest[i] != [])
    && (|rest| < MAX_CHUNKS - 1 ==> at + |Flatten(rest)| == |data|)
  }

  lemma RestChunks(fs: seq<Frame>, hist: map<int, Bytes>, k: nat)
    requires FramesMatch(fs, hist) && k < |fs| && fs[k].recordingId in hist
    ensures ChunksRest(hist[fs[k].recordingId], fs[k].start + |fs[k].sample|, ChunksFrom(fs, k + 1, fs[k].recordingId, MAX_CHUNKS - 1))
  {
    hide FramesMatch, At, Flatten;
    NoneEmpty(fs, hist, k + 1, fs[k].recordingId, MAX_CHUNKS - 1);
    ChunksAre(fs, hist, k + 1, fs[k].recordingId, MAX_CHUNKS - 1, fs[k].start + |fs[k].sample|);
  }

  lemma FirstAndRest(data: Bytes, start: nat, sample: Bytes, skip: nat, rest: seq<Bytes>)
    requires At(data, start, sample) && ChunksRest(data, start + |sample|, rest) && skip < |sample|
    ensures ChunksExact(data, start + skip, [sample[skip..]] + rest)
  {
    hide At, Flatten;
    var first := sample[skip..];
    AtTail(data, start, sample, skip);
    Joined(data, start + skip, first, Flatten(rest));
    FlattenFirst(first, rest);
  }

  // -- write_iter_prep ---------------------------------------------------------------------------

  /** Recordings have consecutive ids, so the search finds the recording with an id iff it is in RAM. */
  lemma PartitionIs(p: Pipe, id: int)
    requires RecsOk(p) && id <= Top(p)
    ensures Partition(p.stream.recs, id) == Max(0, id - First(p))
    ensures forall i | 0 <= i < |p.stream.recs| :: p.stream.recs[i].id == First(p) + i
  {
    var i := Partition(p.stream.recs, id);
    if i < |p.stream.recs| {
      assert RecOk(p, i);
    }
    if i > 0 {
      assert RecOk(p, i - 1);
    }
    forall i | 0 <= i < |p.stream.recs| ensures p.stream.recs[i].id == First(p) + i {
      assert RecOk(p, i);
    }
  }

  /** The worker gives up on the recording it is at and goes on to the next id. */
  function Abandoned(s: Stream): Stream {
    var i := Partition(s.recs, s.ws.id);
    var recs := if i < |s.recs| && s.recs[i].id == s.ws.id then MarkDeleted(s.recs, i) else s.recs;
    MoveOn(s.(recs := recs), s.ws.id)
  }

  lemma AbandonedKeepsRecs(p: Pipe, q: Pipe)
    requires Inv(p) && p.dbCum <= p.stream.ws.id < Top(p)
    requires q == p.(stream := Abandoned(p.stream), job := Queued(None))
    ensures RecsOk(q)
  {
    hide FramesOk, DbOk, FlushOk, JobOk, Partition;
    PartitionIs(p, p.stream.ws.id);
    forall i | 0 <= i < |q.stream.recs| ensures RecOk(q, i) {
      assert RecOk(p, i);
    }
  }

  lemma AbandonedKeepsFlush(p: Pipe, q: Pipe)
    requires Inv(p) && p.dbCum <= p.stream.ws.id < Top(p)
    requires q == p.(stream := Abandoned(p.stream), job := Queued(None))
    ensures FlushOk(q)
  {
    hide FramesOk, DbOk, JobOk, Partition, Matches;
    PartitionIs(p, p.stream.ws.id);
    var i := Partition(p.stream.recs, p.stream.ws.id);
    if !p.flush.NoFlush? && i < |p.stream.recs| {
      var end := if p.flush.Gathered? then p.stream.flushReady else p.dbCum;
      ReadyChanged(p.flush.news, p.stream.recs, q.stream.recs, i, p.stream.committed, end);
    }
  }

  lemma AbandonedSafe(p: Pipe)
    requires Inv(p) && p.dbCum <= p.stream.ws.id < Top(p)
    ensures Inv(p.(stream := Abandoned(p.stream), job := Queued(None)))
  {
    hide FramesOk, DbOk, FlushOk, RecOk, Partition;
    var q := p.(stream := Abandoned(p.stream), job := Queued(None));
    AbandonedKeepsRecs(p, q);
    AbandonedKeepsFlush(p, q);
  }

  lemma SyncedSafe(p: Pipe, id: int)
    requires Inv(p) && p.job == Queued(Some((id, Synced)))
    ensures Inv(p.(stream := MoveOn(p.stream, id), job := Queued(None)))
  {
    hide FramesOk, DbOk, Matches;
    var q := p.(stream := MoveOn(p.stream, id), job := Queued(None));
    forall i | 0 <= i < |q.stream.recs| ensures RecOk(q, i) {
      assert RecOk(p, i);
    }
  }

  lemma WrittenSafe(p: Pipe, id: int, n: nat)
    requires Inv(p) && p.job == Queued(Some((id, Written(n))))
    ensures Inv(p.(stream := p.stream.(ws := p.stream.ws.(written := p.stream.ws.written + n, file := true)), job := Queued(None)))
  {
    hide FramesOk, DbOk, Matches;
    var q := p.(stream := p.stream.(ws := p.stream.ws.(written := p.stream.ws.written + n, file := true)), job := Queued(None));
    forall i | 0 <= i < |q.stream.recs| ensures RecOk(q, i) {
      assert RecOk(p, i);
    }
  }

  lemma TakeOutcomeSafe(p: Pipe, id: int, outcome: Outcome)
    requires Inv(p) && p.job == Queued(Some((id, outcome)))
    ensures var r := TakeOutcome(p.stream, id, outcome);
            (r.Again? || r.Idle?) && Inv(p.(stream := r.s, job := Queued(None)))
  {
    hide FramesOk, DbOk, FlushOk, RecOk, Partition, PruneFront, MaybePrune;
    var s := p.stream;
    PartitionIs(p, s.ws.id);
    match outcome
    case Aborted =>
      AbandonedSafe(p);
      var t := Abandoned(s);
      PruneFrontSafe(p.(stream := t, job := Queued(None)), Pos(t.ws));
      MaybePruneSafe(p.(stream := t.(queue := PruneFront(t.queue, Pos(t.ws))), job := Queued(None)));
    case Written(n) =>
      WrittenSafe(p, id, n);
      var t := s.(ws := s.ws.(written := s.ws.written + n, file := true));
      PruneFrontSafe(p.(stream := t, job := Queued(None)), Pos(t.ws));
    case Synced =>
      RecBytes(p, id);
      SyncedSafe(p, id);
      PruneFrontSafe(p.(stream := MoveOn(s, id), job := Queued(None)), Pos(MoveOn(s, id).ws));
  }

  lemma RecBytes(p: Pipe, id: int)
    requires RecsOk(p) && First(p) <= id < Top(p)
    ensures var r := p.stream.recs[id - First(p)];
            r.id == id && id in p.hist && |p.hist[id]| == r.bytes > 0 && (r.growing <==> p.writer.Some? && id == Top(p) - 1)
  {
    assert RecOk(p, id - First(p));
  }

  /** The worker advances to the next recording in RAM. */
  lemma AdvanceSafe(p: Pipe, i: nat)
    requires Inv(p) && p.job == Queued(None) && i == Partition(p.stream.recs, p.stream.ws.id) < |p.stream.recs|
    requires p.stream.ws.file ==> p.stream.recs[i].id == p.stream.ws.id
    ensures Inv(p.(stream := p.stream.(ws := p.stream.ws.(id := p.stream.recs[i].id))))
    ensures p.dbCum <= p.stream.recs[i].id < Top(p)
    ensures !p.stream.ws.file ==> p.stream.ws.written == 0
  {
    hide FramesOk, DbOk, Matches, Partition;
    PartitionIs(p, p.stream.ws.id);
    var q := p.(stream := p.stream.(ws := p.stream.ws.(id := p.stream.recs[i].id)));
    assert RecOk(p, i);
    forall j | 0 <= j < |q.stream.recs| ensures RecOk(q, j) {
      assert RecOk(p, j);
    }
  }

  /** What the worker goes off to do. */
  lemma GoSafe(p: Pipe, id: int, step: IoStep)
    requires Inv(p) && p.job.Queued? && p.stream.ws.onWorker
    requires var ws := p.stream.ws.(file := false);
             Held(ws, p.hist, p.dbCum, id) && StepOk(ws, p.hist, p.files, First(p), p.stream.complete, step)
    ensures Inv(p.(stream := p.stream.(ws := p.stream.ws.(file := false)), job := Doing(id, step)))
  {
    hide FramesOk, DbOk, Matches, StepOk, Held;
    var q := p.(stream := p.stream.(ws := p.stream.ws.(file := false)), job := Doing(id, step));
    forall j | 0 <= j < |q.stream.recs| ensures RecOk(q, j) {
      assert RecOk(p, j);
    }
  }

  /** How the invariant continues after a pass. */
  ghost predicate PassOk(p: Pipe, pass: Pass) {
    match pass
    case Panic => false
    case Again(s) => Inv(p.(stream := s, job := Queued(None)))
    case Idle(s) => Inv(p.(stream := s.(ws := s.ws.(onWorker := false)), job := Off))
    case Go(s, id, step) => Inv(p.(stream := s, job := Doing(id, step)))
  }

  lemma IdleSafe(p: Pipe)
    requires Inv(p) && p.job == Queued(None)
    ensures Inv(p.(stream := p.stream.(ws := p.stream.ws.(onWorker := false)), job := Off))
  {
    hide FramesOk, DbOk, Matches;
    var q := p.(stream := p.stream.(ws := p.stream.ws.(onWorker := false)), job := Off);
    forall j | 0 <= j < |q.stream.recs| ensures RecOk(q, j) {
      assert RecOk(p, j);
    }
  }

  lemma ExamineSafe(p: Pipe)
    requires Inv(p) && p.job == Queued(None)
    ensures PassOk(p, Examine(p.stream))
  {
    hide RecOk, DbOk, FlushOk, Partition, PrepareWrite, Inv, FrameOk;
    var s := p.stream;
    var i := Partition(s.recs, s.ws.id);
    FoundOrNot(p);
    if s.ws.file && (i == |s.recs| || s.recs[i].id != s.ws.id) {
      GoSafe(p, s.ws.id, Abort);
    } else if i == |s.recs| {
      IdleSafe(p);
    } else {
      AdvanceSafe(p, i);
      CurrentSafe(p.(stream := s.(ws := s.ws.(id := s.recs[i].id))), i);
    }
  }

  lemma FoundOrNot(p: Pipe)
    requires Inv(p) && p.job == Queued(None)
    ensures RecsOk(p) && p.stream.ws.onWorker
    ensures p.stream.ws.file ==> Held(p.stream.ws.(file := false), p.hist, p.dbCum, p.stream.ws.id)
  {
    hide FramesOk, DbOk, FlushOk, RecOk;
  }

  lemma CurrentSafe(p: Pipe, i: nat)
    requires Inv(p) && p.job == Queued(None)
    requires i < |p.stream.recs| && p.stream.recs[i].id == p.stream.ws.id && p.dbCum <= p.stream.ws.id
    requires i == Partition(p.stream.recs, p.stream.ws.id)
    ensures PassOk(p, Examine(p.stream))
  {
    hide DbOk, FlushOk, Partition, PrepareWrite, FrameOk;
    var s, r := p.stream, p.stream.recs[i];
    assert RecOk(p, i);
    PrepareWriteExact(r, s.queue.frames, p.hist, s.ws.written);
    match PrepareWrite(r, s.queue.frames, s.ws.written)
    case None =>
      if s.ws.file {
        GoSafe(p, r.id, Abort);
      } else {
        AbandonedSafe(p);
      }
    case Some(chunks) =>
      if chunks != [] {
        GoSafe(p, r.id, Write(s.ws.file, chunks));
      } else if r.growing {
        IdleSafe(p);
      } else {
        GoSafe(p, r.id, Sync);
      }
  }

  lemma PassSafe(p: Pipe, last: Option<(int, Outcome)>)
    requires Inv(p) && p.job == Queued(last)
    ensures PassOk(p, OnePass(p.stream, last))
  {
    hide Inv, TakeOutcome, Examine;
    InvFits(p);
    match last
    case None => ExamineSafe(p);
    case Some(l) =>
      TakeOutcomeSafe(p, l.0, l.1);
      var r := TakeOutcome(p.stream, l.0, l.1);
      if r.Idle? {
        ExamineSafe(p.(stream := r.s, job := Queued(None)));
      }
  }

  lemma InvFits(p: Pipe)
    requires Inv(p)
    ensures p.stream.queue.lastGop <= |p.stream.queue.frames|
    ensures p.job.Queued? ==> p.stream.ws.onWorker
  {
  }

  /** No assertion or panic of `write_iter_prep` is reached. */
  lemma {:induction false} PrepSafe(p: Pipe, last: Option<(int, Outcome)>)
    requires Inv(p) && p.job == Queued(last) && p.stream.queue.lastGop <= |p.stream.queue.frames|
    ensures PassOk(p, Prep(p.stream, last))
    decreases if last.Some? then 1 else 0, |p.stream.recs| - Partition(p.stream.recs, p.stream.ws.id)
  {
    hide Inv, OnePass;
    PassSafe(p, last);
    match OnePass(p.stream, last)
    case Again(t) => PrepSafe(p.(stream := t, job := Queued(None)), None);
    case done =>
  }

  lemma WorkerPrepSafe(p: Pipe)
    requires Inv(p) && p.job.Queued? && p.stream.queue.lastGop <= |p.stream.queue.frames|
    ensures WorkerPrep(p).Some? && Inv(WorkerPrep(p).value)
  {
    hide Inv, Prep;
    InvFits(p);
    PrepSafe(p, p.job.last);
  }

  // -- write_iter_step ---------------------------------------------------------------------------

  /** Only the file of the recording that the worker holds changes. */
  lemma FileChanged(p: Pipe, files: map<int, File>, job: Job)
    requires Inv(p) && p.job.Doing?
    requires forall id | id != p.job.id :: (id in files <==> id in p.files) && (id in files ==> files[id] == p.files[id])
    requires JobOk(job, p.stream.ws, p.hist, files, p.dbCum, First(p), p.stream.complete)
    ensures Inv(p.(files := files, job := job))
  {
    hide FramesOk, Matches, OutcomeOk, StepOk, WaitingOk;
    var q := p.(files := files, job := job);
    forall j | 0 <= j < |q.stream.recs| ensures RecOk(q, j) {
      assert RecOk(p, j);
    }
    assert RecsOk(q);
    forall id | id in q.rows ensures RowOk(q.rows[id], id, files, q.dbCum) {
      assert RowOk(p.rows[id], id, p.files, p.dbCum);
    }
  }

  /** Whatever the operating system does. */
  lemma IoSafe(p: Pipe, result: IoResult)
    requires Inv(p) && p.job.Doing? && IoPossible(p, result)
    ensures Inv(WorkerIo(p, result))
  {
    hide FramesOk, RecsOk, CumsOk, FlushOk, DbOk;
    var q := WorkerIo(p, result);
    if result.Wrote? {
      var data, done := p.hist[p.job.id], p.stream.ws.written;
      AtPrefix(data, done, Flatten(p.job.step.chunks), result.n);
    }
    FileChanged(p, q.files, q.job);
  }

  /** A partial write leaves the file a longer prefix. */
  lemma AtPrefix(data: Bytes, i: nat, a: Bytes, n: nat)
    requires At(data, i, a) && n <= |a|
    ensures i + n <= |data| && data[..i] + a[..n] == data[..i + n]
  {
    assert a[..n] == data[i..i + |a|][..n] == data[i..i + n];
  }
}
