/** When the documented rule for UNCOMMITTED holds and `delete_until` never panics: whenever each
    recording starts with a key frame. */
module PipeKeys {
  import opened Base
  import opened RecentFrames
  import opened StreamState
  import opened Pipe
  import opened PipeInv
  import opened PipeSteps
  import opened PipeWorker
  import opened PipeFlush
  import opened PipeSafe

  /** Written and waiting for a commit. */
  predicate Waiting(r: Rec, s: Stream) {
    s.committed <= r.id < s.ws.id && !r.deleted
  }

  /** The newest group of pictures is within the newest recording; older frames than those of a
      recording that waits for its commit are gone; aborted recordings are not before `committed`. */
  ghost predicate Keyed(p: Pipe) {
    var s, q := p.stream, p.stream.queue;
    && (q.frames != [] ==> q.lastGop < |q.frames| && q.frames[q.lastGop].recordingId == Top(p) - 1)
    && (forall i | 0 <= i < |s.recs| && Waiting(s.recs[i], s) :: q.frames != [] && q.frames[0].recordingId >= s.recs[i].id)
    && (forall i | 0 <= i < |s.recs| && s.recs[i].deleted && s.recs[i].uncommitted :: s.recs[i].id >= s.committed)
  }

  /** A new recording starts with a key frame. */
  predicate KeyStart(p: Pipe, ev: Event) {
    ev.Push? && p.writer.None? ==> ev.isKey
  }

  // -- pruning -----------------------------------------------------------------------------------

  lemma PruneFrontKeyed(p: Pipe, pos: BytePos)
    requires Inv(p) && Keyed(p)
    ensures Keyed(p.(stream := p.stream.(queue := PruneFront(p.stream.queue, pos))))
  {
    hide RecsOk, CumsOk, FlushOk, JobOk, DbOk, FrameOk;
    FrontMoves(p.stream.queue, pos);
  }

  lemma FrontMoves(q: Queue, pos: BytePos)
    requires ValidQueue(q)
    ensures var r := PruneFront(q, pos);
            q.frames != [] ==> r.frames != [] && r.lastGop < |r.frames| && r.frames[r.lastGop] == q.frames[q.lastGop]
                               && q.frames[0].recordingId <= r.frames[0].recordingId
                               && (r.lastGop == 0 || Less(pos, EndOf(r.frames[0])))
  {
    PruneFrontExactly(q, pos);
    var k := |q.frames| - |PruneFront(q, pos).frames|;
    if 0 < k < |q.frames| {
      EndsIncrease(q.frames, 0, k);
    }
  }

  lemma MaybePruneKeyed(p: Pipe)
    requires Keyed(p)
    ensures Keyed(p.(stream := MaybePrune(p.stream)))
  {
  }

  // -- the stream writer -------------------------------------------------------------------------

  lemma PushKeyed(p: Pipe, sample: Bytes, isKey: bool, entry: int)
    requires Inv(p) && Keyed(p) && sample != [] && (p.writer.None? ==> isKey)
    requires PushFrame(p, sample, isKey, entry).Some?
    ensures Keyed(PushFrame(p, sample, isKey, entry).value)
  {
    hide Inv, PruneFront, MaybePrune;
    var q := Appended(p, sample, isKey, entry);
    AppendedKeyed(p, sample, isKey, entry);
    AppendedSafe(p, sample, isKey, entry);
    PruneFrontKeyed(q, Pos(p.stream.ws));
    MaybePruneKeyed(q.(stream := q.stream.(queue := PruneFront(q.stream.queue, Pos(p.stream.ws)))));
  }

  lemma AppendedKeyed(p: Pipe, sample: Bytes, isKey: bool, entry: int)
    requires Inv(p) && Keyed(p) && sample != [] && (p.writer.None? ==> isKey)
    ensures Keyed(Appended(p, sample, isKey, entry))
  {
    hide JobOk, FlushOk, DbOk, FrameOk, RecOk;
    LastUnsynced(p);
    var q := Appended(p, sample, isKey, entry);
    forall i | 0 <= i < |q.stream.recs| && Waiting(q.stream.recs[i], q.stream)
      ensures q.stream.queue.frames != [] && q.stream.queue.frames[0].recordingId >= q.stream.recs[i].id
    {
      assert i < |p.stream.recs| && Waiting(p.stream.recs[i], p.stream);
    }
  }

  lemma LastUnsynced(p: Pipe)
    requires RecsOk(p)
    ensures p.writer.Some? ==> p.stream.recs != [] && p.stream.recs[|p.stream.recs| - 1].id == p.stream.complete
                               && !Waiting(p.stream.recs[|p.stream.recs| - 1], p.stream)
  {
    if p.writer.Some? {
      assert RecOk(p, |p.stream.recs| - 1);
    }
  }

  lemma CloseKeyed(p: Pipe)
    requires Inv(p) && Keyed(p) && p.writer.Some? && CloseRec(p).Some?
    ensures Keyed(CloseRec(p).value)
  {
    hide JobOk, FlushOk, DbOk, FramesOk, RecOk;
    LastUnsynced(p);
    var q := CloseRec(p).value;
    forall i | 0 <= i < |q.stream.recs| && Waiting(q.stream.recs[i], q.stream)
      ensures q.stream.queue.frames != [] && q.stream.queue.frames[0].recordingId >= q.stream.recs[i].id
    {
      assert Waiting(p.stream.recs[i], p.stream);
    }
  }

  // -- the worker --------------------------------------------------------------------------------

  lemma AbandonedKeyed(p: Pipe)
    requires Inv(p) && Keyed(p) && p.dbCum <= p.stream.ws.id < Top(p)
    ensures Keyed(p.(stream := Abandoned(p.stream), job := Queued(None)))
  {
    hide JobOk, FlushOk, DbOk, FramesOk, RecOk, Partition;
    PartitionIs(p, p.stream.ws.id);
    var q := p.(stream := Abandoned(p.stream), job := Queued(None));
    forall i | 0 <= i < |q.stream.recs| && Waiting(q.stream.recs[i], q.stream)
      ensures q.stream.queue.frames != [] && q.stream.queue.frames[0].recordingId >= q.stream.recs[i].id
    {
      assert Waiting(p.stream.recs[i], p.stream);
    }
  }

  lemma SyncedKeyed(p: Pipe, id: int)
    requires Inv(p) && Keyed(p) && p.job == Queued(Some((id, Synced)))
    ensures var t := MoveOn(p.stream, id);
            Keyed(p.(stream := t.(queue := PruneFront(t.queue, Pos(t.ws))), job := Queued(None)))
  {
    hide FlushOk, DbOk, FrameOk, RecOk, PruneFront;
    PartitionIs(p, p.stream.ws.id);
    var t := MoveOn(p.stream, id);
    FrontMoves(t.queue, Pos(t.ws));
    var q := p.(stream := t.(queue := PruneFront(t.queue, Pos(t.ws))), job := Queued(None));
    forall i | 0 <= i < |q.stream.recs| && Waiting(q.stream.recs[i], q.stream)
      ensures q.stream.queue.frames != [] && q.stream.queue.frames[0].recordingId >= q.stream.recs[i].id
    {
      if q.stream.recs[i].id < id {
        assert Waiting(p.stream.recs[i], p.stream);
      }
    }
  }

  lemma TakeOutcomeKeyed(p: Pipe, id: int, outcome: Outcome)
    requires Inv(p) && Keyed(p) && p.job == Queued(Some((id, outcome))) && p.stream.queue.lastGop <= |p.stream.queue.frames|
    ensures !TakeOutcome(p.stream, id, outcome).Panic? ==>
              Keyed(p.(stream := TakeOutcome(p.stream, id, outcome).s, job := Queued(None)))
  {
    hide FramesOk, DbOk, FlushOk, RecsOk, Partition, PruneFront, MaybePrune, Keyed;
    var s := p.stream;
    assert RecsOk(p);
    match outcome
    case Aborted =>
      HeldBelowTop(p, id);
      AbandonedSafe(p);
      AbandonedKeyed(p);
      var t := Abandoned(s);
      PruneFrontKeyed(p.(stream := t, job := Queued(None)), Pos(t.ws));
      MaybePruneKeyed(p.(stream := t.(queue := PruneFront(t.queue, Pos(t.ws))), job := Queued(None)));
    case Written(n) =>
      WrittenSafe(p, id, n);
      var t := s.(ws := s.ws.(written := s.ws.written + n, file := true));
      SameWaiting(p, p.(stream := t, job := Queued(None)));
      PruneFrontKeyed(p.(stream := t, job := Queued(None)), Pos(t.ws));
    case Synced => SyncedKeyed(p, id);
  }

  lemma HeldBelowTop(p: Pipe, id: int)
    requires Inv(p) && p.job == Queued(Some((id, Aborted)))
    ensures p.dbCum <= p.stream.ws.id < Top(p)
  {
    hide FramesOk, DbOk, FlushOk, RecOk;
  }

  /** Nothing that `Keyed` speaks of changed. */
  lemma SameWaiting(p: Pipe, q: Pipe)
    requires Keyed(p) && q.stream.recs == p.stream.recs && q.stream.queue == p.stream.queue && Top(q) == Top(p)
    requires q.stream.committed == p.stream.committed
    requires forall i | 0 <= i < |p.stream.recs| :: Waiting(p.stream.recs[i], q.stream) ==> Waiting(p.stream.recs[i], p.stream)
    ensures Keyed(q)
  {
  }

  /** What a pass makes of the stream when there is no outcome to deal with. */
  lemma ExamineIs(s: Stream)
    requires Increasing(s.recs)
    ensures var i, r := Partition(s.recs, s.ws.id), Examine(s);
            && (r.Again? ==> i < |s.recs| && (s.ws.file ==> s.recs[i].id == s.ws.id)
                             && r.s == Abandoned(s.(ws := s.ws.(id := s.recs[i].id))))
            && (r.Idle? || r.Go? ==> r.s.recs == s.recs && r.s.queue == s.queue && r.s.committed == s.committed
                                     && r.s.complete == s.complete
                                     && (r.s.ws.id == s.ws.id || (i < |s.recs| && r.s.ws.id == s.recs[i].id)))
  {
    hide PrepareWrite, Partition;
    var i := Partition(s.recs, s.ws.id);
    if i < |s.recs| {
      PartitionOfNext(s, i);
    }
  }

  lemma PartitionOfNext(s: Stream, i: nat)
    requires Increasing(s.recs) && i == Partition(s.recs, s.ws.id) < |s.recs|
    ensures Partition(s.recs, s.recs[i].id) == i
  {
    assert forall j | 0 <= j < i :: s.recs[j].id < s.recs[i].id;
  }

  /** Advancing to the next recording in RAM skips none that waits. */
  lemma NoneBetween(s: Stream, id: int)
    requires Increasing(s.recs)
    requires var i := Partition(s.recs, s.ws.id); id == s.ws.id || (i < |s.recs| && id == s.recs[i].id)
    ensures forall j | 0 <= j < |s.recs| && s.recs[j].id < id :: s.recs[j].id < s.ws.id
  {
    hide Partition;
    var i := Partition(s.recs, s.ws.id);
    forall j | 0 <= j < |s.recs| && s.recs[j].id < id ensures s.recs[j].id < s.ws.id {
      if i < j < |s.recs| {
        assert s.recs[i].id < s.recs[j].id;
      }
    }
  }

  lemma ExamineKeyed(p: Pipe)
    requires Inv(p) && Keyed(p) && p.job == Queued(None)
    ensures var r := Examine(p.stream); !r.Panic? ==> Keyed(p.(stream := r.s, job := Queued(None)))
  {
    hide FramesOk, DbOk, FlushOk, RecOk, Partition, Examine, Keyed, JobOk, Increasing, Abandoned;
    var s, r := p.stream, Examine(p.stream);
    IdsIncrease(p);
    ExamineIs(s);
    var i := Partition(s.recs, s.ws.id);
    if r.Again? {
      AdvanceSafe(p, i);
      NoneBetween(s, s.recs[i].id);
      var t := p.(stream := s.(ws := s.ws.(id := s.recs[i].id)));
      SameWaiting(p, t);
      AbandonedKeyed(t);
    } else if !r.Panic? {
      NoneBetween(s, r.s.ws.id);
      SameWaiting(p, p.(stream := r.s, job := Queued(None)));
    }
  }

  lemma PassKeyed(p: Pipe, last: Option<(int, Outcome)>)
    requires Inv(p) && Keyed(p) && p.job == Queued(last) && p.stream.queue.lastGop <= |p.stream.queue.frames|
    ensures var r := OnePass(p.stream, last); !r.Panic? ==> Keyed(p.(stream := r.s, job := Queued(None)))
  {
    hide Inv, Keyed, Examine, TakeOutcome;
    match last
    case None => ExamineKeyed(p);
    case Some(l) =>
      TakeOutcomeSafe(p, l.0, l.1);
      TakeOutcomeKeyed(p, l.0, l.1);
      var r := TakeOutcome(p.stream, l.0, l.1);
      if r.Idle? {
        ExamineKeyed(p.(stream := r.s, job := Queued(None)));
      }
  }

  lemma {:induction false} PrepKeyed(p: Pipe, last: Option<(int, Outcome)>)
    requires Inv(p) && Keyed(p) && p.job == Queued(last) && p.stream.queue.lastGop <= |p.stream.queue.frames|
    ensures var r := Prep(p.stream, last); !r.Panic? ==> Keyed(p.(stream := r.s, job := Queued(None)))
    decreases if last.Some? then 1 else 0, |p.stream.recs| - Partition(p.stream.recs, p.stream.ws.id)
  {
    hide Inv, Keyed, OnePass;
    PassSafe(p, last);
    PassKeyed(p, last);
    match OnePass(p.stream, last)
    case Again(t) => PrepKeyed(p.(stream := t, job := Queued(None)), None);
    case done =>
  }

  lemma WorkerPrepKeyed(p: Pipe)
    requires Inv(p) && Keyed(p) && p.job.Queued? && p.stream.queue.lastGop <= |p.stream.queue.frames| && WorkerPrep(p).Some?
    ensures Keyed(WorkerPrep(p).value)
  {
    hide Inv, Keyed, Prep;
    PrepKeyed(p, p.job.last);
    var r := Prep(p.stream, p.job.last);
    SameWaiting(p.(stream := r.s, job := Queued(None)), WorkerPrep(p).value);
  }

  // -- the flush ---------------------------------------------------------------------------------

  /** After a commit everything older than the newest recording that was committed is popped. */
  lemma MarkedPops(p: Pipe, marked: seq<Rec>, j: nat)
    requires Inv(p) && Keyed(p) && Marks(p, marked) && p.flush.news != []
    requires j < |marked| && p.stream.recs[j] == p.flush.news[|p.flush.news| - 1]
    ensures PopCount(marked, p.stream.queue, p.stream.ws) >= j
  {
    hide JobOk, DbOk, FrameOk, NewsOk;
    var s := p.stream;
    assert p.flush.news[|p.flush.news| - 1] in p.flush.news;
    assert RecOk(p, j) && IsReady(s.recs[j], s.committed, p.dbCum) && Waiting(s.recs[j], s);
    forall i | 0 <= i < j ensures Poppable(marked[i], s.queue, s.ws) {
      assert RecOk(p, i) && MarkedAs(p, s.recs[i], marked[i]);
      assert s.recs[i] in p.flush.news <==> IsReady(s.recs[i], s.committed, p.dbCum);
    }
  }

  lemma ApplyKeyed(p: Pipe)
    requires Inv(p) && Keyed(p) && p.flush.Committed? && !DeletesAborted(p) && ApplyFlush(p).Some?
    ensures Keyed(ApplyFlush(p).value)
  {
    hide Inv, ApplyFlush, DeletesAborted;
    var marked := ApplyMarks(p);
    var q := Marked(p, marked);
    if p.flush.news != [] {
      NewestCommitted(p, marked);
    } else if p.flush.end.Some? {
      NoneCommitted(p, marked);
    } else {
      SameWaiting(p, p.(flush := NoFlush));
    }
  }

  lemma NoneCommitted(p: Pipe, marked: seq<Rec>)
    requires Inv(p) && Keyed(p) && Marks(p, marked) && p.flush.news == [] && !DeletesAborted(p)
    ensures Keyed(Marked(p, marked).(stream := MaybePrune(Marked(p, marked).stream)))
  {
    hide JobOk, DbOk, FramesOk, RecOk, MaybePrune, DeletesAborted;
    var q := Marked(p, marked);
    forall i | 0 <= i < |marked| && Waiting(marked[i], q.stream)
      ensures q.stream.queue.frames != [] && q.stream.queue.frames[0].recordingId >= marked[i].id
    {
      assert MarkedAs(p, p.stream.recs[i], marked[i]) && Waiting(p.stream.recs[i], p.stream);
    }
    forall i | 0 <= i < |marked| && marked[i].deleted && marked[i].uncommitted ensures marked[i].id >= p.dbCum {
      assert MarkedAs(p, p.stream.recs[i], marked[i]);
      NotDeletedNow(p, i, marked[i]);
    }
    MaybePruneKeyed(q);
  }

  lemma NotDeletedNow(p: Pipe, i: nat, marked: Rec)
    requires Inv(p) && p.flush.Committed? && i < |p.stream.recs| && MarkedAs(p, p.stream.recs[i], marked) && !DeletesAborted(p)
    ensures marked.deleted && marked.uncommitted ==> p.stream.recs[i].deleted && p.stream.recs[i].uncommitted
  {
    hide JobOk, DbOk, FramesOk;
    assert RecOk(p, i);
  }

  lemma StillKeyed(p: Pipe, r: Rec, marked: Rec, newest: Rec)
    requires Inv(p) && Keyed(p) && p.flush.Committed? && r in p.stream.recs && MarkedAs(p, r, marked)
    requires newest in p.flush.news && newest.id + 1 == p.dbCum && newest.id <= r.id
    ensures p.dbCum <= marked.id < p.stream.ws.id && !marked.deleted ==>
              p.stream.queue.frames != [] && p.stream.queue.frames[0].recordingId >= marked.id
    ensures marked.deleted && marked.uncommitted ==> marked.id >= p.dbCum
  {
    hide JobOk, DbOk, FramesOk, NewsOk;
    var i :| 0 <= i < |p.stream.recs| && p.stream.recs[i] == r;
    var j :| 0 <= j < |p.stream.recs| && p.stream.recs[j] == newest;
    assert RecOk(p, i) && RecOk(p, j);
    if p.dbCum <= marked.id < p.stream.ws.id && !marked.deleted {
      assert Waiting(p.stream.recs[i], p.stream);
    }
  }

  lemma NewestCommitted(p: Pipe, marked: seq<Rec>)
    requires Inv(p) && Keyed(p) && Marks(p, marked) && p.flush.news != []
    ensures Keyed(Marked(p, marked).(stream := MaybePrune(Marked(p, marked).stream)))
  {
    hide JobOk, DbOk, FramesOk, PopCount, NewsOk, RecOk, MarkedAs;
    var newest := p.flush.news[|p.flush.news| - 1];
    assert newest in p.flush.news;
    var j :| 0 <= j < |p.stream.recs| && p.stream.recs[j] == newest;
    MarkedPops(p, marked, j);
    IdsIncrease(p);
    var q := Marked(p, marked);
    var k := PopCount(marked, p.stream.queue, p.stream.ws);
    var r := q.(stream := MaybePrune(q.stream));
    assert r.stream.recs == marked[k..];
    forall i | 0 <= i < |r.stream.recs|
      ensures Waiting(r.stream.recs[i], r.stream) ==> r.stream.queue.frames != [] && r.stream.queue.frames[0].recordingId >= r.stream.recs[i].id
      ensures r.stream.recs[i].deleted && r.stream.recs[i].uncommitted ==> r.stream.recs[i].id >= p.dbCum
    {
      assert MarkedAs(p, p.stream.recs[k + i], marked[k + i]);
      StillKeyed(p, p.stream.recs[k + i], marked[k + i], newest);
    }
  }

  // -- every step --------------------------------------------------------------------------------

  /** What a flush needs of `delete_until` always holds. */
  lemma NothingAbortedIsDeleted(p: Pipe)
    requires Inv(p) && Keyed(p) && p.flush.Committed?
    ensures !DeletesAborted(p)
  {
    hide JobOk, DbOk, FramesOk, RecsOk, Matches;
  }

  /** A step that the environment may take, without any condition on `delete_until`. */
  ghost predicate Possible(p: Pipe, ev: Event) {
    if ev.Apply? then p.flush.Committed? else Enabled(p, ev)
  }

  lemma KeyedSafe(p: Pipe, ev: Event)
    requires Inv(p) && Keyed(p) && KeyStart(p, ev) && Possible(p, ev) && p.stream.queue.lastGop <= |p.stream.queue.frames|
    ensures Enabled(p, ev) && Step(p, ev).Some? && Inv(Step(p, ev).value) && Keyed(Step(p, ev).value)
  {
    hide Inv, Keyed, PushFrame, CloseRec, WorkerPrep, ApplyFlush, WorkerIo, CommitTx, GatherStream, DeletesAborted;
    if ev.Apply? {
      NothingAbortedIsDeleted(p);
    }
    StepSafe(p, ev);
    match ev
    case Push(sample, isKey, entry, wake) =>
      PushKeyed(p, sample, isKey, entry);
      SameWaiting(PushFrame(p, sample, isKey, entry).value, Step(p, ev).value);
    case CloseRecording(sent) =>
      CloseKeyed(p);
      SameWaiting(CloseRec(p).value, Step(p, ev).value);
    case PrepStep => WorkerPrepKeyed(p);
    case Apply => ApplyKeyed(p);
    case _ =>
      OtherSteps(p, ev);
      SameWaiting(p, Step(p, ev).value);
  }

  lemma OtherSteps(p: Pipe, ev: Event)
    requires Enabled(p, ev) && p.stream.queue.lastGop <= |p.stream.queue.frames| && Step(p, ev).Some?
    requires !ev.Push? && !ev.CloseRecording? && !ev.PrepStep? && !ev.Apply?
    ensures var q := Step(p, ev).value;
            && q.stream.recs == p.stream.recs && q.stream.queue == p.stream.queue && Top(q) == Top(p)
            && q.stream.committed == p.stream.committed && q.stream.ws == p.stream.ws
  {
    hide Ready, Inserted, PruneFront, MaybePrune;
  }

  /** The documented rule for one recording: UNCOMMITTED exactly from `committed.cum_recordings` on. */
  predicate FlagRule(r: Rec, s: Stream) {
    r.uncommitted <==> r.id >= s.committed
  }

  /** An aborted recording still in RAM before the committed ones. */
  predicate AbortedBefore(r: Rec, s: Stream) {
    r.deleted && r.uncommitted && r.id < s.committed
  }

  /** In every state of the protocol the rule holds for each recording that is not deleted; it holds for
      all if and only if none was aborted before the committed ones. */
  lemma FlagsExactly(p: Pipe)
    requires Inv(p)
    ensures forall i | 0 <= i < |p.stream.recs| && !p.stream.recs[i].deleted :: FlagRule(p.stream.recs[i], p.stream)
    ensures (forall i | 0 <= i < |p.stream.recs| :: FlagRule(p.stream.recs[i], p.stream)) <==>
            (forall i | 0 <= i < |p.stream.recs| :: !AbortedBefore(p.stream.recs[i], p.stream))
  {
    hide JobOk, DbOk, FramesOk, FlushOk, CumsOk;
    forall i | 0 <= i < |p.stream.recs| ensures FlagRule(p.stream.recs[i], p.stream) <==> !AbortedBefore(p.stream.recs[i], p.stream) {
      assert RecOk(p, i);
    }
  }

  /** Where recordings start with key frames it holds for all. */
  lemma FlagsAsDocumented(p: Pipe)
    requires Inv(p) && Keyed(p)
    ensures forall i | 0 <= i < |p.stream.recs| :: FlagRule(p.stream.recs[i], p.stream)
  {
    hide Inv;
    FlagsExactly(p);
  }

  // -- runs --------------------------------------------------------------------------------------

  ghost predicate KeyedMove(p: Pipe, m: Move, q: Pipe) {
    Moves(p, m, q) && (m.Do? ==> KeyStart(p, m.event))
  }

  ghost predicate KeyedRun(p: Pipe, moves: seq<Move>, q: Pipe)
    decreases |moves|
  {
    if moves == [] then q == p
    else
      var before, last := moves[..|moves| - 1], moves[|moves| - 1];
      exists u :: KeyedRun(p, before, u) && KeyedMove(u, last, q)
  }

  lemma RestartKeyed(p: Pipe, files: map<int, File>)
    ensures Keyed(Restart(p, files))
  {
  }

  lemma {:induction false} KeyedRunInv(p: Pipe, moves: seq<Move>, q: Pipe)
    requires Inv(p) && Keyed(p) && KeyedRun(p, moves, q)
    ensures Inv(q) && Keyed(q)
    decreases |moves|
  {
    hide Inv, Keyed, Step, Enabled, KeyStart;
    if moves != [] {
      var before, last := moves[..|moves| - 1], moves[|moves| - 1];
      var u :| KeyedRun(p, before, u) && KeyedMove(u, last, q);
      KeyedRunInv(p, before, u);
      match last
      case Do(ev) =>
        EnabledIsPossible(u, ev);
        KeyedSafe(u, ev);
      case Crash(files) =>
        CrashSafe(u, files);
        RestartKeyed(u, files);
    }
  }

  lemma EnabledIsPossible(p: Pipe, ev: Event)
    requires Enabled(p, ev)
    ensures Possible(p, ev)
  {
  }

  /** After any run from startup in which every recording starts with a key frame, crashes included:
      UNCOMMITTED is set as documented, and no step that is possible next, a flush's last phase
      included, fails an assertion. */
  lemma KeyedRunsAreSafe(p: Pipe, moves: seq<Move>, q: Pipe, ev: Event)
    requires p == Restart(p, p.files) && p.dbCum >= 0 && DbOk(p.rows, p.files, p.garbage, p.garbage, p.dbCum, p.dbCum)
    requires KeyedRun(p, moves, q) && KeyStart(q, ev) && Possible(q, ev) && q.stream.queue.lastGop <= |q.stream.queue.frames|
    ensures forall i | 0 <= i < |q.stream.recs| :: FlagRule(q.stream.recs[i], q.stream)
    ensures Enabled(q, ev) && Step(q, ev).Some?
  {
    hide Step, Enabled, KeyStart, Possible, DbOk, JobOk, FlushOk, RecsOk, CumsOk, FramesOk, KeyedRun, Keyed;
    RestartRest(p, p.files);
    RestartKeyed(p, p.files);
    KeyedRunInv(p, moves, q);
    FlagsAsDocumented(q);
    KeyedSafe(q, ev);
  }
}
