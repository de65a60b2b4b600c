/** What every step of the recording pipeline keeps. */
module PipeInv {
  import opened Base
  import opened RecentFrames
  import opened StreamState
  import opened Pipe

  /** The id after the newest recording's. */
  function Top(p: Pipe): int {
    p.stream.complete + (if p.writer.Some? then 1 else 0)
  }

  /** The oldest recording in RAM; ids are consecutive. */
  function First(p: Pipe): int {
    Top(p) - |p.stream.recs|
  }

  /** The recording's file was completely written and synced. */
  ghost predicate Stored(hist: map<int, Bytes>, files: map<int, File>, id: int) {
    id in hist && id in files && files[id] == File(hist[id], true)
  }

  predicate Deleting(p: Pipe, id: int) {
    p.flush.Committed? && p.flush.end.Some? && id < p.flush.end.value
  }

  ghost predicate RecOk(p: Pipe, i: nat)
    requires i < |p.stream.recs|
  {
    var r, s := p.stream.recs[i], p.stream;
    && r.id == First(p) + i
    && (r.growing <==> p.writer.Some? && i == |s.recs| - 1)
    && (r.id >= s.committed ==> r.uncommitted)
    && (r.uncommitted && r.id < s.committed ==> r.deleted)
    && (r.id < p.dbCum || r.deleted ==> r.id < s.ws.id)
    && r.id in p.hist && |p.hist[r.id]| == r.bytes && r.bytes > 0
    && (s.committed <= r.id < s.ws.id && !r.deleted ==> !r.growing && Stored(p.hist, p.files, r.id))
    && (r.id < p.dbCum ==> (r.id in p.rows <==> !r.deleted && !Deleting(p, r.id)))
  }

  ghost predicate RecsOk(p: Pipe) {
    && (forall i | 0 <= i < |p.stream.recs| :: RecOk(p, i))
    && (p.writer.Some? ==> p.stream.recs != [] && p.writer.value == p.stream.complete)
    && (forall id | id in p.hist :: id < Top(p))
  }

  ghost predicate CumsOk(p: Pipe) {
    var s := p.stream;
    && 0 <= s.committed <= p.dbCum <= s.complete
    && (!p.flush.Committed? ==> p.dbCum == s.committed)
    && s.ws.id <= Top(p)
    && (s.flushReady <= s.committed || s.flushReady <= s.ws.id)
    && (p.deleteEnd.Some? ==> p.deleteEnd.value <= s.committed)
  }

  ghost predicate FrameOk(fs: seq<Frame>, hist: map<int, Bytes>, i: nat)
    requires i < |fs|
  {
    var f := fs[i];
    && f.recordingId in hist && At(hist[f.recordingId], f.start, f.sample)
    && ((i + 1 < |fs| && fs[i + 1].recordingId == f.recordingId) || f.start + |f.sample| == |hist[f.recordingId]|)
  }

  /** Each frame is its recording's data at its place, and the recording of each frame is in RAM. */
  ghost predicate FramesOk(q: Queue, hist: map<int, Bytes>, first: int, top: int) {
    && ValidQueue(q)
    && (forall i | 0 <= i < |q.frames| :: FrameOk(q.frames, hist, i))
    && (q.frames == [] <==> first == top)
    && (q.frames != [] ==> q.frames[|q.frames| - 1].recordingId == top - 1 && q.frames[0].recordingId >= first)
  }

  /** The worker's file holds exactly the first n bytes of its recording. */
  ghost predicate OpenFile(id: int, hist: map<int, Bytes>, files: map<int, File>, n: nat) {
    && id in hist && n <= |hist[id]|
    && id in files && files[id].content == hist[id][..n]
  }

  /** The recording is closed, in RAM and all written. */
  ghost predicate AllWritten(ws: WriterState, hist: map<int, Bytes>, first: int, complete: int) {
    first <= ws.id < complete && ws.id in hist && ws.written == |hist[ws.id]|
  }

  ghost predicate WaitingOk(ws: WriterState, hist: map<int, Bytes>, files: map<int, File>, dbCum: int) {
    if ws.file then ws.id >= dbCum && OpenFile(ws.id, hist, files, ws.written) else ws.written == 0
  }

  ghost predicate Held(ws: WriterState, hist: map<int, Bytes>, dbCum: int, id: int) {
    ws.id == id && !ws.file && id >= dbCum && id in hist && ws.written <= |hist[id]|
  }

  ghost predicate OutcomeOk(ws: WriterState, hist: map<int, Bytes>, files: map<int, File>, first: int, complete: int,
                            outcome: Outcome) {
    match outcome
    case Aborted => true
    case Written(n) => OpenFile(ws.id, hist, files, ws.written + n)
    case Synced => AllWritten(ws, hist, first, complete) && Stored(hist, files, ws.id)
  }

  ghost predicate StepOk(ws: WriterState, hist: map<int, Bytes>, files: map<int, File>, first: int, complete: int,
                         step: IoStep) {
    match step
    case Abort => true
    case Write(file, chunks) =>
      && ws.id in hist && At(hist[ws.id], ws.written, Flatten(chunks))
      && (if file then OpenFile(ws.id, hist, files, ws.written) else ws.written == 0)
    case Sync => AllWritten(ws, hist, first, complete) && OpenFile(ws.id, hist, files, ws.written)
  }

  ghost predicate JobOk(job: Job, ws: WriterState, hist: map<int, Bytes>, files: map<int, File>, dbCum: int,
                        first: int, complete: int) {
    && (ws.onWorker <==> job != Off)
    && match job
       case Off => WaitingOk(ws, hist, files, dbCum)
       case Queued(None) => WaitingOk(ws, hist, files, dbCum)
       case Queued(Some(last)) => Held(ws, hist, dbCum, last.0) && OutcomeOk(ws, hist, files, first, complete, last.1)
       case Doing(id, step) => Held(ws, hist, dbCum, id) && StepOk(ws, hist, files, first, complete, step)
  }

  /** Every row's file is complete, synced and has exactly the row's bytes. */
  ghost predicate RowOk(row: Row, id: int, files: map<int, File>, dbCum: int) {
    id < dbCum && id in files && files[id] == File(row.content, true) && |row.content| == row.bytes
  }

  ghost predicate DbOk(rows: map<int, Row>, files: map<int, File>, garbage: set<int>, handed: set<int>,
                       dbCum: int, committed: int) {
    && (forall id | id in rows :: RowOk(rows[id], id, files, dbCum) && id !in garbage && id !in handed)
    && (forall id | id in garbage :: id < dbCum)
    && (forall id | id in handed :: id < committed)
  }

  /** What a flush gathered is what it will mark, whatever runs in between. */
  ghost predicate FlushOk(p: Pipe) {
    var s := p.stream;
    match p.flush
    case NoFlush => true
    case Gathered(news, end) =>
      && !s.pinned && end == p.deleteEnd
      && Matches(news, s.recs, s.committed, s.flushReady)
      && NewsOk(news, s.committed, s.ws.id, s.flushReady, CumOf(news, s.committed))
    case Committed(news, end, gone) =>
      && !s.pinned && end == p.deleteEnd
      && Matches(news, s.recs, s.committed, p.dbCum)
      && p.dbCum == CumOf(news, s.committed)
      && NewsOk(news, s.committed, s.ws.id, s.flushReady, p.dbCum)
      && (forall id | id in gone :: id < s.committed && id !in p.rows)
  }

  /** `news` is what a flush of the current recordings up to `end` would gather. */
  ghost predicate Matches(news: seq<Rec>, recs: seq<Rec>, committed: int, end: int) {
    forall r :: r in news <==> r in recs && IsReady(r, committed, end)
  }

  ghost predicate NewsOk(news: seq<Rec>, committed: int, synced: int, flushReady: int, cum: int) {
    && (forall r | r in news :: r.id < cum)
    && (news != [] ==> committed < cum <= synced && cum <= flushReady)
  }

  ghost predicate Inv(p: Pipe) {
    var s := p.stream;
    && s.queue.lastGop <= |s.queue.frames| && RecsOk(p) && CumsOk(p) && FlushOk(p)
    && FramesOk(s.queue, p.hist, First(p), Top(p))
    && JobOk(p.job, s.ws, p.hist, p.files, p.dbCum, First(p), s.complete)
    && DbOk(p.rows, p.files, p.garbage, p.handed, p.dbCum, s.committed)
  }

  // -- pruning -----------------------------------------------------------------------------------

  lemma FramesDropped(q: Queue, pos: BytePos, hist: map<int, Bytes>, first: int, top: int)
    requires FramesOk(q, hist, first, top)
    ensures FramesOk(PruneFront(q, pos), hist, first, top)
  {
    hide PruneFront;
    var k := PruneFrontKeeps(q, pos);
    var fs := PruneFront(q, pos).frames;
    forall i | 0 <= i < |fs| ensures FrameOk(fs, hist, i) {
      assert FrameOk(q.frames, hist, k + i);
    }
    if k > 0 && fs != [] {
      EndsIncrease(q.frames, 0, k);
    }
  }

  lemma PruneFrontSafe(p: Pipe, pos: BytePos)
    requires Inv(p)
    ensures Inv(p.(stream := p.stream.(queue := PruneFront(p.stream.queue, pos))))
  {
    hide FramesOk, JobOk, DbOk, Matches, NewsOk, PruneFront;
    FramesDropped(p.stream.queue, pos, p.hist, First(p), Top(p));
    var q := p.(stream := p.stream.(queue := PruneFront(p.stream.queue, pos)));
    forall i | 0 <= i < |q.stream.recs| ensures RecOk(q, i) {
      assert RecOk(p, i);
    }
  }

  lemma ReadyDropped(news: seq<Rec>, recs: seq<Rec>, k: nat, committed: int, end: int)
    requires k <= |recs| && forall i | 0 <= i < k :: !IsReady(recs[i], committed, end)
    requires Matches(news, recs, committed, end)
    ensures Matches(news, recs[k..], committed, end)
  {
    forall r | IsReady(r, committed, end) && r in recs ensures r in recs[k..] {
      var i :| 0 <= i < |recs| && recs[i] == r;
      assert recs[k..][i - k] == r;
    }
  }

  /** A change of one recording that a flush does not gather changes nothing for the flush. */
  lemma ReadyChanged(news: seq<Rec>, a: seq<Rec>, b: seq<Rec>, i: nat, committed: int, end: int)
    requires Matches(news, a, committed, end)
    requires i < |b| && i <= |a| && |b| == Max(|a|, i + 1)
    requires forall j | 0 <= j < |a| && j != i :: a[j] == b[j]
    requires (i < |a| ==> !IsReady(a[i], committed, end)) && !IsReady(b[i], committed, end)
    ensures Matches(news, b, committed, end)
  {
    forall r | IsReady(r, committed, end) ensures r in a <==> r in b {
      if r in a {
        var j :| 0 <= j < |a| && a[j] == r;
        assert b[j] == r;
      }
      if r in b {
        var j :| 0 <= j < |b| && b[j] == r;
        assert j < |a| && a[j] == r;
      }
    }
  }

  /** Only recordings that no one needs are popped. */
  lemma MaybePruneSafe(p: Pipe)
    requires Inv(p)
    ensures Inv(p.(stream := MaybePrune(p.stream)))
  {
    hide FramesOk, JobOk, DbOk, Matches, NewsOk, PopCount;
    var s := p.stream;
    var k := PopCount(s.recs, s.queue, s.ws);
    var q := p.(stream := MaybePrune(s));
    if !s.pinned {
      PopsOld(p, k);
      PopsUnready(p, k);
      forall i | 0 <= i < |q.stream.recs| ensures RecOk(q, i) {
        assert RecOk(p, k + i);
      }
    }
  }

  lemma PopsOld(p: Pipe, k: nat)
    requires Inv(p) && k == PopCount(p.stream.recs, p.stream.queue, p.stream.ws)
    ensures p.stream.recs == [] || k < |p.stream.recs|
    ensures FramesOk(p.stream.queue, p.hist, First(p) + k, Top(p))
    ensures JobOk(p.job, p.stream.ws, p.hist, p.files, p.dbCum, First(p) + k, p.stream.complete)
  {
    hide DbOk, FlushOk, CumsOk, PopCount, FrameOk;
    var s := p.stream;
    if s.recs != [] {
      var last := |s.recs| - 1;
      assert RecOk(p, last);
      if |s.queue.frames| > 1 {
        EndsIncrease(s.queue.frames, 0, |s.queue.frames| - 1);
      }
      assert !Poppable(s.recs[last], s.queue, s.ws);
      if k > 0 {
        assert RecOk(p, k - 1) && Poppable(s.recs[k - 1], s.queue, s.ws);
      }
    }
    if AllWritten(s.ws, p.hist, First(p), s.complete) {
      var i := s.ws.id - First(p);
      assert RecOk(p, i) && !Poppable(s.recs[i], s.queue, s.ws);
    }
  }

  lemma PopsUnready(p: Pipe, k: nat)
    requires Inv(p) && k == PopCount(p.stream.recs, p.stream.queue, p.stream.ws) && !p.stream.pinned
    ensures FlushOk(p.(stream := MaybePrune(p.stream)))
  {
    hide FramesOk, JobOk, DbOk, Matches, PopCount;
    var s := p.stream;
    if !p.flush.NoFlush? {
      var end := if p.flush.Gathered? then s.flushReady else p.dbCum;
      forall i | 0 <= i < k ensures !IsReady(s.recs[i], s.committed, end) {
        assert RecOk(p, i) && Poppable(s.recs[i], s.queue, s.ws);
      }
      ReadyDropped(p.flush.news, s.recs, k, s.committed, end);
    }
  }
}
