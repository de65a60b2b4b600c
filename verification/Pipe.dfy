/** One stream's recording pipeline as a protocol: the stream writer, a directory worker, the flusher
    and the flush transaction, each lock-held region one step (server/db/writer.rs,
    server/db/dir/writer.rs, server/db/lifecycle.rs, server/db/db.rs). */
module Pipe {
  import opened Base
  import opened RecentFrames
  import opened StreamState

  /** A sample file; `durable` once both it and its directory were synced. */
  datatype File = File(content: Bytes, durable: bool)

  /** A row of the recording table. `content` stands for the stored hash of the file. */
  datatype Row = Row(bytes: nat, entry: int, content: Bytes)

  /** The worker's business with this stream: none, about to take the stream lock with the outcome of
      its last I/O, or doing I/O without the lock. */
  datatype Job = Off | Queued(last: Option<(int, Outcome)>) | Doing(id: int, step: IoStep)

  /** A flush under the database lock. `end` is the end of the range it deletes; `gone` the ids it
      moved to the garbage table. */
  datatype Flush = NoFlush | Gathered(news: seq<Rec>, end: Option<int>)
                 | Committed(news: seq<Rec>, end: Option<int>, gone: set<int>)

  /** `writer` is the `InnerWriter`'s open recording. `hist` is all sample data pushed since startup.
      `rows`, `dbCum` and `garbage` are the database's; `handed` are the ids ever given to the
      directory pool for unlinking; `deleteEnd` ends the range queued in `to_delete`. */
  datatype Pipe = Pipe(stream: Stream, writer: Option<int>, job: Job, hist: map<int, Bytes>,
                       files: map<int, File>, rows: map<int, Row>, dbCum: int, garbage: set<int>,
                       handed: set<int>, deleteEnd: Option<int>, flush: Flush)

  /** What the operating system makes of an I/O step; `left` is whatever a failed file holds. */
  datatype IoResult = OpenFailed | Failed(unlinked: bool, left: Bytes) | Wrote(n: nat) | SyncDone

  datatype Event =
    | Push(sample: Bytes, isKey: bool, entry: int, wake: Option<bool>)
    | CloseRecording(sent: bool)
    | PrepStep
    | Io(result: IoResult)
    | Notify
    | Pin(on: bool)
    | QueueDelete(end: int)
    | Unlink(id: int)
    | Abandon(id: int)
    | Gather
    | Commit(gced: set<int>)
    | Fail
    | Apply

  function Flatten(chunks: seq<Bytes>): Bytes {
    if chunks == [] then [] else chunks[0] + Flatten(chunks[1..])
  }

  function Data(p: Pipe, id: int): Bytes {
    if id in p.hist then p.hist[id] else []
  }

  // -- the stream writer -----------------------------------------------------------------------

  /** `wake`; `sent` says whether the pool takes the command. */
  function Wake(p: Pipe, sent: bool): Pipe {
    if p.stream.ws.onWorker || !sent then p
    else p.(stream := p.stream.(ws := p.stream.ws.(onWorker := true)), job := Queued(None))
  }

  /** `get`'s assertion. */
  predicate IsOpen(recs: seq<Rec>, id: int) {
    recs != [] && recs[|recs| - 1].id == id && recs[|recs| - 1].uncommitted
  }

  /** `InnerWriter::push`, with `add_recording` when there is no open recording; `None` is a failed
      assertion in any of them or in `push_back`. */
  function PushFrame(p: Pipe, sample: Bytes, isKey: bool, entry: int): Option<Pipe>
    requires p.stream.queue.lastGop <= |p.stream.queue.frames|
  {
    var s := p.stream;
    var id := if p.writer.Some? then p.writer.value else s.complete;
    var recs := if p.writer.Some? then s.recs else s.recs + [Rec(id, true, false, true, 0, entry)];
    if p.writer.None? && s.recs != [] && s.recs[|s.recs| - 1].growing then None
    else if !IsOpen(recs, id) then None
    else
      var last := |recs| - 1;
      var f := Frame(id, recs[last].bytes, sample, isKey);
      if s.queue.frames != [] && !Follows(s.queue.frames[|s.queue.frames| - 1], f) then None
      else
        var pushed := s.(recs := recs[last := recs[last].(bytes := recs[last].bytes + |sample|)],
                         queue := PruneFront(Pushed(s.queue, f), Pos(s.ws)));
        Some(p.(writer := Some(id), hist := p.hist[id := Data(p, id) + sample], stream := MaybePrune(pushed)))
  }

  /** `InnerWriter::close`, up to waking the worker. */
  function CloseRec(p: Pipe): Option<Pipe>
    requires p.writer.Some?
  {
    var s, id := p.stream, p.writer.value;
    if !IsOpen(s.recs, id) || s.complete != id then None
    else
      var last := |s.recs| - 1;
      Some(p.(writer := None, stream := s.(recs := s.recs[last := s.recs[last].(growing := false)], complete := id + 1)))
  }

  // -- the worker ------------------------------------------------------------------------------

  /** The lock-held part of `Worker::write`'s loop. */
  function WorkerPrep(p: Pipe): Option<Pipe>
    requires p.job.Queued? && p.stream.queue.lastGop <= |p.stream.queue.frames|
  {
    if !p.stream.ws.onWorker then None
    else match Prep(p.stream, p.job.last)
      case Panic => None
      case Idle(s) => Some(p.(stream := s.(ws := s.ws.(onWorker := false)), job := Off))
      case Go(s, id, step) => Some(p.(stream := s, job := Doing(id, step)))
  }

  /** What `write_iter_step` can do: a file is created only if there is none, and a write writes any
      prefix of the chunks. */
  predicate IoPossible(p: Pipe, result: IoResult)
    requires p.job.Doing?
  {
    match p.job.step
    case Abort => result.Failed?
    case Write(file, chunks) =>
      if result.OpenFailed? then !file
      else (file || p.job.id !in p.files) && (result.Failed? || (result.Wrote? && result.n <= |Flatten(chunks)|))
    case Sync => result.Failed? || result.SyncDone?
  }

  function WorkerIo(p: Pipe, result: IoResult): Pipe
    requires p.job.Doing? && IoPossible(p, result)
  {
    var id := p.job.id;
    var before := if id in p.files then p.files[id].content else [];
    match result
    case OpenFailed => p.(job := Queued(Some((id, Aborted))))
    case Failed(unlinked, left) =>
      p.(job := Queued(Some((id, Aborted))), files := if unlinked then p.files - {id} else p.files[id := File(left, false)])
    case Wrote(n) =>
      p.(job := Queued(Some((id, Written(n)))), files := p.files[id := File(before + Flatten(p.job.step.chunks)[..n], false)])
    case SyncDone =>
      p.(job := Queued(Some((id, Synced))), files := p.files[id := File(before, true)])
  }

  // -- the flush -------------------------------------------------------------------------------

  /** The new `cum_recordings`. */
  function CumOf(news: seq<Rec>, committed: int): int {
    if news == [] then committed else news[|news| - 1].id + 1
  }

  function GatherStream(p: Pipe): Option<Pipe> {
    var s := p.stream;
    if exists i :: 0 <= i < |s.recs| && s.committed <= s.recs[i].id < s.flushReady && !s.recs[i].uncommitted then None
    else Some(p.(flush := Gathered(Ready(s.recs, s.committed, s.flushReady), p.deleteEnd)))
  }

  function Inserted(rows: map<int, Row>, news: seq<Rec>, hist: map<int, Bytes>): map<int, Row> {
    if news == [] then rows
    else
      var r := news[|news| - 1];
      Inserted(rows, news[..|news| - 1], hist)[r.id := Row(r.bytes, r.entry, if r.id in hist then hist[r.id] else [])]
  }

  function Before(rows: map<int, Row>, end: Option<int>): set<int> {
    set id | id in rows && end.Some? && id < end.value
  }

  /** The transaction; `None` is `insert_recordings`' failed assertion on the flags. `gced` are the
      garbage rows it removes. */
  function CommitTx(p: Pipe, gced: set<int>): Option<Pipe>
    requires p.flush.Gathered?
  {
    var news := p.flush.news;
    if exists r :: r in news && (r.growing || r.deleted || !r.uncommitted) then None
    else
      var rows := Inserted(p.rows, news, p.hist);
      var gone := Before(rows, p.flush.end);
      Some(p.(rows := rows - gone, garbage := (p.garbage - gced) + gone, dbCum := CumOf(news, p.dbCum),
              flush := Committed(news, p.flush.end, gone)))
  }

  /** The in-memory changes after the commit; `None` is a failed assertion of `delete_until` or of the
      marking loop. A stream without changes is not touched. */
  function ApplyFlush(p: Pipe): Option<Pipe>
    requires p.flush.Committed?
  {
    var s, news, end := p.stream, p.flush.news, p.flush.end;
    if news == [] && end.None? then Some(p.(flush := NoFlush))
    else
      match (if end.Some? then DeleteUntil(s.recs, end.value) else Some(s.recs))
      case None => None
      case Some(recs) =>
        var cum := CumOf(news, s.committed);
        match MarkCommitted(recs, s.committed, cum)
        case None => None
        case Some(marked) =>
          Some(p.(stream := MaybePrune(s.(recs := marked, committed := cum)), handed := p.handed + p.flush.gone,
                  deleteEnd := None, flush := NoFlush))
  }

  // -- steps and runs --------------------------------------------------------------------------

  /** What the actors and their environment may do next. The flusher, listings and flushes hold the
      database lock, so they exclude each other. An aborted recording is not in the range that a flush
      is about to delete: `delete_until` would panic (see `DeleteUntilPanics`). */
  ghost predicate Enabled(p: Pipe, ev: Event) {
    match ev
    case Push(sample, _, _, _) => sample != []
    case CloseRecording(_) => p.writer.Some?
    case PrepStep => p.job.Queued?
    case Io(result) => p.job.Doing? && IoPossible(p, result)
    case Notify => p.flush.NoFlush?
    case Pin(on) => p.flush.NoFlush? && on != p.stream.pinned
    case QueueDelete(end) => p.flush.NoFlush? && end <= p.dbCum && (p.deleteEnd.Some? ==> p.deleteEnd.value <= end)
    case Unlink(id) => id in p.handed
    case Abandon(id) => p.hist == map[] && id >= p.dbCum
    case Gather => p.flush.NoFlush? && !p.stream.pinned
    case Commit(gced) => p.flush.Gathered? && gced <= p.handed
    case Fail => p.flush.Gathered?
    case Apply => p.flush.Committed? && !DeletesAborted(p)
  }

  /** The range being deleted holds an aborted recording that is still in RAM. */
  predicate DeletesAborted(p: Pipe)
    requires p.flush.Committed?
  {
    p.flush.end.Some? && exists i :: 0 <= i < |p.stream.recs| && p.stream.recs[i].id < p.flush.end.value
                                     && p.stream.recs[i].deleted && p.stream.recs[i].uncommitted
  }

  /** The state after a step; `None` if an assertion of the source fails. */
  function Step(p: Pipe, ev: Event): Option<Pipe>
    requires Enabled(p, ev) && p.stream.queue.lastGop <= |p.stream.queue.frames|
  {
    match ev
    case Push(sample, isKey, entry, wake) =>
      (match PushFrame(p, sample, isKey, entry)
       case None => None
       case Some(q) => Some(if wake.Some? then Wake(q, wake.value) else q))
    case CloseRecording(sent) =>
      (match CloseRec(p)
       case None => None
       case Some(q) => Some(Wake(q, sent)))
    case PrepStep => WorkerPrep(p)
    case Io(result) => Some(WorkerIo(p, result))
    case Notify => Some(p.(stream := p.stream.(flushReady := p.stream.ws.id)))
    case Pin(on) => Some(p.(stream := p.stream.(pinned := on)))
    case QueueDelete(end) => Some(p.(deleteEnd := Some(end)))
    case Unlink(id) => Some(p.(files := p.files - {id}))
    case Abandon(id) => Some(p.(files := p.files - {id}))
    case Gather => GatherStream(p)
    case Commit(gced) => CommitTx(p, gced)
    case Fail => Some(p.(flush := NoFlush))
    case Apply => ApplyFlush(p)
  }

  /** What a crash can leave: files that were durable are as they were; any others may be lost, partly
      written or, if unlinked, back. */
  ghost predicate Survives(before: map<int, File>, after: map<int, File>) {
    forall id | id in before && before[id].durable :: id in after && after[id] == before[id]
  }

  /** Startup: `init_streams` and `init_sample_file_dirs` from the database. */
  function Restart(p: Pipe, files: map<int, File>): Pipe {
    Pipe(Stream([], false, Queue([], 0), WriterState(0, 0, false, false), p.dbCum, p.dbCum, p.dbCum),
         None, Off, map[], files, p.rows, p.dbCum, p.garbage, p.garbage, None, NoFlush)
  }
}
