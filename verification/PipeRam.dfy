/** What stays in RAM until it is written: the worker loses a recording only when it is more than
    67,108,864 bytes behind. */
module PipeRam {
  import opened Base
  import opened RecentFrames
  import opened StreamState
  import opened Pipe
  import opened PipeInv
  import opened PipeSteps
  import opened PipeWorker
  import opened PipeFlush
  import opened PipeSafe

  /** Some frame holds byte b of recording id. */
  predicate InRam(fs: seq<Frame>, id: int, b: nat) {
    exists i :: 0 <= i < |fs| && Covers(fs[i], id, b)
  }

  predicate NotBefore(a: BytePos, b: BytePos) {
    !Less(a, b)
  }

  /** A frame holds the byte, and it and the frames after it have more than 67,108,864 bytes. */
  predicate FarBehind(fs: seq<Frame>, id: int, b: nat) {
    exists i :: 0 <= i < |fs| && Covers(fs[i], id, b) && TotalBytes(fs[i..]) > 67_108_864
  }

  // -- pruning -----------------------------------------------------------------------------------

  lemma StaysInRam(fs: seq<Frame>, k: nat, i: nat, id: int, b: nat)
    requires k <= i < |fs| && Covers(fs[i], id, b)
    ensures InRam(fs[k..], id, b)
  {
    assert fs[k..][i - k] == fs[i];
  }

  /** Pruning takes a byte at or after `pos` only from far behind. */
  lemma PruneTakes(q: Queue, pos: BytePos, id: int, b: nat)
    requires ValidQueue(q) && NotBefore(BytePos(id, b), pos)
    requires InRam(q.frames, id, b) && !InRam(PruneFront(q, pos).frames, id, b)
    ensures FarBehind(q.frames, id, b)
  {
    hide PruneFront, TotalBytes;
    PruneFrontExactly(q, pos);
    var r := PruneFront(q, pos);
    var k := |q.frames| - |r.frames|;
    var i :| 0 <= i < |q.frames| && Covers(q.frames[i], id, b);
    if i >= k {
      StaysInRam(q.frames, k, i, id, b);
      assert false;
    }
    assert Expendable(q.frames, i, pos) && Less(pos, EndOf(q.frames[i]));
  }

  // -- one step ----------------------------------------------------------------------------------

  /** The worker's position once the outcome of its last I/O is taken. */
  function Position(p: Pipe): BytePos
    requires p.stream.queue.lastGop <= |p.stream.queue.frames|
  {
    match p.job
    case Queued(Some(last)) =>
      (match TakeOutcome(p.stream, last.0, last.1)
       case Panic => Pos(p.stream.ws)
       case done => Pos(done.s.ws))
    case _ => Pos(p.stream.ws)
  }

  /** Up to which byte a step may prune as written. */
  function Cut(p: Pipe, ev: Event): BytePos
    requires p.stream.queue.lastGop <= |p.stream.queue.frames|
  {
    if ev.PrepStep? then Position(p) else Pos(p.stream.ws)
  }

  /** The frames in RAM during a step, before it prunes. */
  function Frames(p: Pipe, ev: Event): seq<Frame> {
    if ev.Push? then Appended(p, ev.sample, ev.isKey, ev.entry).stream.queue.frames else p.stream.queue.frames
  }

  lemma ExamineStays(s: Stream)
    ensures var r := Examine(s); !r.Panic? ==> r.s.queue == s.queue && NotBefore(Pos(r.s.ws), Pos(s.ws))
  {
    hide PrepareWrite;
  }

  lemma OutcomeMoves(s: Stream, id: int, outcome: Outcome)
    requires s.queue.lastGop <= |s.queue.frames|
    ensures var r := TakeOutcome(s, id, outcome);
            !r.Panic? ==> r.s.queue == PruneFront(s.queue, Pos(r.s.ws)) && NotBefore(Pos(r.s.ws), Pos(s.ws))
  {
    hide PruneFront, PopCount;
  }

  lemma {:induction false} PrepStays(s: Stream)
    requires s.queue.lastGop <= |s.queue.frames|
    ensures var r := Prep(s, None); !r.Panic? ==> r.s.queue == s.queue && NotBefore(Pos(r.s.ws), Pos(s.ws))
    decreases |s.recs| - Partition(s.recs, s.ws.id)
  {
    hide Examine;
    ExamineStays(s);
    AbandonedMovesOn(s);
    match Examine(s)
    case Again(t) => PrepStays(t);
    case done =>
  }

  /** Once the outcome is taken the worker goes on as without one. */
  lemma PrepAfter(s: Stream, id: int, outcome: Outcome)
    requires s.queue.lastGop <= |s.queue.frames| && !TakeOutcome(s, id, outcome).Panic?
    ensures TakeOutcome(s, id, outcome).s.queue.lastGop <= |TakeOutcome(s, id, outcome).s.queue.frames|
    ensures Prep(s, Some((id, outcome))) == Prep(TakeOutcome(s, id, outcome).s, None)
  {
    hide Examine;
    assert !TakeOutcome(s, id, outcome).Go?;
  }

  /** The loop of the worker prunes only when it takes the outcome. */
  lemma PrepMoves(s: Stream, id: int, outcome: Outcome)
    requires s.queue.lastGop <= |s.queue.frames|
    ensures var o, r := TakeOutcome(s, id, outcome), Prep(s, Some((id, outcome)));
            !r.Panic? ==> !o.Panic? && r.s.queue == o.s.queue && NotBefore(Pos(r.s.ws), Pos(o.s.ws))
  {
    hide Examine, TakeOutcome;
    if !TakeOutcome(s, id, outcome).Panic? {
      PrepAfter(s, id, outcome);
      PrepStays(TakeOutcome(s, id, outcome).s);
    }
  }

  /** The queue that a step prunes, if it prunes one. */
  ghost predicate Prunes(p: Pipe, ev: Event, g: Queue, q: Queue)
    requires p.stream.queue.lastGop <= |p.stream.queue.frames|
  {
    && g.frames == Frames(p, ev) && ValidQueue(g)
    && (q == g || q == PruneFront(g, Cut(p, ev)))
  }

  lemma WorkerQueue(p: Pipe)
    requires Inv(p) && p.job.Queued? && WorkerPrep(p).Some?
    ensures var q := WorkerPrep(p).value;
            && Prunes(p, PrepStep, p.stream.queue, q.stream.queue)
            && NotBefore(Pos(q.stream.ws), Position(p)) && NotBefore(Position(p), Pos(p.stream.ws))
  {
    hide Prep, TakeOutcome, PruneFront, RecsOk, CumsOk, FlushOk, JobOk, DbOk, FrameOk;
    match p.job.last
    case None => PrepStays(p.stream);
    case Some(last) =>
      OutcomeMoves(p.stream, last.0, last.1);
      PrepMoves(p.stream, last.0, last.1);
  }

  lemma PushQueue(p: Pipe, sample: Bytes, isKey: bool, entry: int)
    requires Inv(p) && sample != [] && PushFrame(p, sample, isKey, entry).Some?
    ensures var a, q := Appended(p, sample, isKey, entry), PushFrame(p, sample, isKey, entry).value;
            q.stream.queue == PruneFront(a.stream.queue, Pos(p.stream.ws)) && q.stream.ws == p.stream.ws && ValidQueue(a.stream.queue)
            && q.hist == a.hist
  {
    AppendedSafe(p, sample, isKey, entry);
    hide PruneFront, PopCount, RecsOk, CumsOk, FlushOk, JobOk, DbOk, FrameOk, ValidQueue;
  }

  lemma QueueAfter(p: Pipe, ev: Event) returns (g: Queue)
    requires Inv(p) && Enabled(p, ev) && Step(p, ev).Some?
    ensures Prunes(p, ev, g, Step(p, ev).value.stream.queue)
    ensures NotBefore(Pos(Step(p, ev).value.stream.ws), Cut(p, ev)) && NotBefore(Cut(p, ev), Pos(p.stream.ws))
  {
    hide PruneFront, RecsOk, CumsOk, FlushOk, JobOk, DbOk, FrameOk, PushFrame, WorkerPrep, Position, Ready, Inserted;
    g := p.stream.queue;
    match ev
    case Push(sample, isKey, entry, wake) =>
      PushQueue(p, sample, isKey, entry);
      g := Appended(p, sample, isKey, entry).stream.queue;
    case PrepStep => WorkerQueue(p);
    case _ =>
  }

  // -- losing a byte -----------------------------------------------------------------------------

  lemma HistSame(p: Pipe, ev: Event)
    requires Enabled(p, ev) && p.stream.queue.lastGop <= |p.stream.queue.frames| && Step(p, ev).Some? && !ev.Push?
    ensures Step(p, ev).value.hist == p.hist && Frames(p, ev) == p.stream.queue.frames
  {
    hide PruneFront, Prep, Ready, Inserted, MaybePrune, DeleteUntil, MarkCommitted;
  }

  /** A pushed byte is in RAM until something is pruned. */
  lemma PushedByte(p: Pipe, sample: Bytes, isKey: bool, entry: int, id: int, b: nat)
    requires Inv(p) && sample != []
    requires var a := Appended(p, sample, isKey, entry); id in a.hist && b < |a.hist[id]|
    ensures InRam(Appended(p, sample, isKey, entry).stream.queue.frames, id, b)
            || (id in p.hist && b < |p.hist[id]| && !InRam(p.stream.queue.frames, id, b))
  {
    hide FramesOk, JobOk, DbOk, FlushOk, CumsOk;
    var a := Appended(p, sample, isKey, entry);
    var fs, all := p.stream.queue.frames, a.stream.queue.frames;
    if p.writer.Some? {
      LastRec(p);
    }
    assert all[|fs|].start == |Data(p, all[|fs|].recordingId)|;
    if id in p.hist && b < |p.hist[id]| {
      if i :| 0 <= i < |fs| && Covers(fs[i], id, b) {
        assert all[i] == fs[i];
      }
    } else {
      assert Covers(all[|fs|], id, b);
    }
  }

  /** A byte that the worker has not passed leaves RAM only from far behind. */
  lemma Lost(p: Pipe, ev: Event, id: int, b: nat)
    requires Inv(p) && Enabled(p, ev) && Step(p, ev).Some?
    requires var q := Step(p, ev).value; id in q.hist && b < |q.hist[id]| && !InRam(q.stream.queue.frames, id, b)
    requires NotBefore(BytePos(id, b), Cut(p, ev))
    ensures FarBehind(Frames(p, ev), id, b) || (id in p.hist && b < |p.hist[id]| && !InRam(p.stream.queue.frames, id, b))
  {
    hide Inv, Step, PruneFront, Enabled, InRam, FarBehind, ValidQueue;
    InvFits(p);
    var g := QueueAfter(p, ev);
    if InRam(g.frames, id, b) {
      PruneTakes(g, Cut(p, ev), id, b);
    } else {
      NotPushed(p, ev, id, b);
    }
  }

  lemma NotPushed(p: Pipe, ev: Event, id: int, b: nat)
    requires Inv(p) && Enabled(p, ev) && p.stream.queue.lastGop <= |p.stream.queue.frames| && Step(p, ev).Some?
    requires var q := Step(p, ev).value; id in q.hist && b < |q.hist[id]| && !InRam(Frames(p, ev), id, b)
    ensures id in p.hist && b < |p.hist[id]| && !InRam(p.stream.queue.frames, id, b)
  {
    hide Inv, InRam, PushFrame, Appended, WorkerPrep, ApplyFlush, CommitTx;
    match ev
    case Push(sample, isKey, entry, wake) =>
      PushQueue(p, sample, isKey, entry);
      PushedByte(p, sample, isKey, entry, id, b);
    case _ => HistSame(p, ev);
  }

  // -- runs --------------------------------------------------------------------------------------

  ghost predicate MovesAt(run: seq<Pipe>, moves: seq<Move>, i: nat)
    requires i < |moves| && i + 1 < |run|
  {
    Moves(run[i], moves[i], run[i + 1])
  }

  /** A run from a startup: the states, and the moves between them. */
  ghost predicate IsRun(run: seq<Pipe>, moves: seq<Move>) {
    && |run| == |moves| + 1 && Inv(run[0]) && run[0].hist == map[]
    && forall i | 0 <= i < |moves| :: MovesAt(run, moves, i)
  }

  lemma {:induction false} RunInv(run: seq<Pipe>, moves: seq<Move>, k: nat)
    requires IsRun(run, moves) && k < |run|
    ensures Inv(run[k]) && run[k].stream.queue.lastGop <= |run[k].stream.queue.frames|
  {
    hide Moves;
    if k > 0 {
      RunInv(run, moves, k - 1);
      assert MovesAt(run, moves, k - 1);
      MoveSafe(run[k - 1], moves[k - 1], run[k]);
    }
    InvFits(run[k]);
  }

  /** At this step the worker is so far behind that more than 67,108,864 bytes are in RAM from the frame
      with byte b of recording id on, which it has not passed. */
  ghost predicate Overran(p: Pipe, m: Move, id: int, b: nat) {
    m.Do? && FarBehind(Frames(p, m.event), id, b) && NotBefore(BytePos(id, b), Pos(p.stream.ws))
  }

  lemma StepOf(run: seq<Pipe>, moves: seq<Move>, k: nat)
    requires IsRun(run, moves) && k < |moves|
    ensures Inv(run[k]) && run[k].stream.queue.lastGop <= |run[k].stream.queue.frames|
    ensures match moves[k]
            case Crash(_) => run[k + 1].hist == map[]
            case Do(ev) => Enabled(run[k], ev) && Step(run[k], ev) == Some(run[k + 1])
  {
    hide Inv, Step, Enabled;
    RunInv(run, moves, k);
    assert MovesAt(run, moves, k);
  }

  lemma NotBeforeThrough(a: BytePos, b: BytePos, c: BytePos)
    requires NotBefore(a, b) && NotBefore(b, c)
    ensures NotBefore(a, c)
  {
  }

  /** A byte that the worker has not passed and that is not in RAM was lost at a step at which the worker
      was that far behind. */
  lemma {:induction false} LostInRun(run: seq<Pipe>, moves: seq<Move>, k: nat, id: int, b: nat) returns (j: nat)
    requires IsRun(run, moves) && k < |run|
    requires id in run[k].hist && b < |run[k].hist[id]| && !InRam(run[k].stream.queue.frames, id, b)
    requires NotBefore(BytePos(id, b), Pos(run[k].stream.ws))
    ensures j < k && Overran(run[j], moves[j], id, b)
  {
    hide Inv, Step, Enabled, IsRun, InRam, FarBehind, NotBefore, Frames, Cut;
    RunStarts(run, moves);
    StepOf(run, moves, k - 1);
    var p, ev := run[k - 1], moves[k - 1].event;
    var _ := QueueAfter(p, ev);
    NotBeforeThrough(BytePos(id, b), Pos(run[k].stream.ws), Cut(p, ev));
    NotBeforeThrough(BytePos(id, b), Cut(p, ev), Pos(p.stream.ws));
    Lost(p, ev, id, b);
    if FarBehind(Frames(p, ev), id, b) {
      j := k - 1;
    } else {
      j := LostInRun(run, moves, k - 1, id, b);
    }
  }

  lemma RunStarts(run: seq<Pipe>, moves: seq<Move>)
    requires IsRun(run, moves)
    ensures |run| == |moves| + 1 && run[0].hist == map[]
  {
  }

  // -- giving up ---------------------------------------------------------------------------------

  /** Some byte of the recording that the worker has not passed is not in RAM. */
  ghost predicate Missing(p: Pipe, id: int) {
    id in p.hist && exists b: nat :: b < |p.hist[id]| && MissingAt(p, id, b)
  }

  ghost predicate MissingAt(p: Pipe, id: int, b: nat) {
    !InRam(p.stream.queue.frames, id, b) && NotBefore(BytePos(id, b), Pos(p.stream.ws))
  }

  /** The recording was dropped from RAM although the worker has not passed it. */
  ghost predicate Gone(p: Pipe, id: int) {
    id in p.hist && p.stream.ws.id <= id < First(p)
  }

  /** In this step the worker gives up on a recording: it sets out to remove its file, or marks it
      deleted, and not because its I/O failed. */
  ghost predicate GivesUp(p: Pipe, q: Pipe, id: int) {
    || q.job == Doing(id, Abort)
    || (p.job != Queued(Some((id, Aborted))) && IsDeleted(q.stream.recs, id) && !IsDeleted(p.stream.recs, id))
  }

  predicate IsDeleted(recs: seq<Rec>, id: int) {
    exists i :: 0 <= i < |recs| && recs[i].id == id && recs[i].deleted
  }

  /** Why a pass gives up. */
  lemma ExamineGivesUp(p: Pipe)
    requires Inv(p) && p.job == Queued(None)
    ensures var r := Examine(p.stream);
            && (r.Go? && r.step == Abort ==> Missing(p, r.id) || (p.stream.ws.file && p.stream.ws.id == r.id && Gone(p, r.id)))
            && (r.Again? ==> !r.s.ws.file)
            && (!r.Panic? ==> forall id | IsDeleted(r.s.recs, id) && !IsDeleted(p.stream.recs, id) :: Missing(p, id))
  {
    hide DbOk, FlushOk, FrameOk, PrepareWrite, Partition, Missing;
    var s := p.stream;
    var i := Partition(s.recs, s.ws.id);
    PartitionIs(p, s.ws.id);
    if i < |s.recs| {
      assert RecOk(p, i);
      var r := s.recs[i];
      if s.ws.file && r.id != s.ws.id {
        assert Gone(p, s.ws.id);
      } else {
        PrepareWriteExact(r, s.queue.frames, p.hist, s.ws.written);
        if PrepareWrite(r, s.queue.frames, s.ws.written).None? {
          NextMissing(p, r.id);
        }
      }
    } else if s.ws.file {
      assert Gone(p, s.ws.id);
    }
  }

  lemma NextMissing(p: Pipe, id: int)
    requires Inv(p) && id in p.hist && p.stream.ws.written < |p.hist[id]| && p.stream.ws.id <= id
    requires forall i | 0 <= i < |p.stream.queue.frames| :: !Covers(p.stream.queue.frames[i], id, p.stream.ws.written)
    ensures Missing(p, id)
  {
    assert MissingAt(p, id, p.stream.ws.written);
  }

  lemma MissingEarlier(p: Pipe, q: Pipe, id: int)
    requires Missing(q, id) && q.hist == p.hist && q.stream.queue.frames == p.stream.queue.frames
    requires NotBefore(Pos(q.stream.ws), Pos(p.stream.ws))
    ensures Missing(p, id)
  {
    hide InRam;
    var b: nat :| b < |q.hist[id]| && MissingAt(q, id, b);
    assert MissingAt(p, id, b);
  }

  lemma {:induction false} PrepGivesUp(p: Pipe)
    requires Inv(p) && p.job == Queued(None) && p.stream.queue.lastGop <= |p.stream.queue.frames|
    ensures var r := Prep(p.stream, None);
            && (r.Go? && r.step == Abort ==> Missing(p, r.id) || (p.stream.ws.file && p.stream.ws.id == r.id && Gone(p, r.id)))
            && (!r.Panic? ==> forall id | IsDeleted(r.s.recs, id) && !IsDeleted(p.stream.recs, id) :: Missing(p, id))
    decreases |p.stream.recs| - Partition(p.stream.recs, p.stream.ws.id)
  {
    hide Inv, Examine, Missing, IsDeleted, Partition, Gone;
    ExamineGivesUp(p);
    ExamineSafe(p);
    ExamineStays(p.stream);
    AbandonedMovesOn(p.stream);
    match Examine(p.stream)
    case Again(t) =>
      var u := p.(stream := t, job := Queued(None));
      PrepGivesUp(u);
      forall id | Missing(u, id) ensures Missing(p, id) {
        MissingEarlier(p, u, id);
      }
    case done =>
  }

  /** What taking an outcome changes of the recordings. */
  lemma OutcomeMarks(p: Pipe, id: int, outcome: Outcome)
    requires Inv(p) && p.job == Queued(Some((id, outcome))) && p.stream.queue.lastGop <= |p.stream.queue.frames|
    ensures var o := TakeOutcome(p.stream, id, outcome);
            !o.Panic? ==>
              && (forall k | IsDeleted(o.s.recs, k) && !IsDeleted(p.stream.recs, k) :: outcome == Aborted && k == id)
              && (if outcome.Written? then o.Idle? && o.s.recs == p.stream.recs && o.s.ws.id == p.stream.ws.id && o.s.complete == p.stream.complete
                  else o.Again? && !o.s.ws.file && o.s.ws.written == 0)
  {
    hide FramesOk, DbOk, FlushOk, RecOk, PruneFront, Partition, PopCount;
  }

  /** Why the worker gives up: a byte it needs is not in RAM, or its recording is not. */
  lemma WorkerGivesUp(p: Pipe, id: int)
    requires Inv(p) && p.job.Queued? && p.stream.queue.lastGop <= |p.stream.queue.frames| && WorkerPrep(p).Some?
    requires GivesUp(p, WorkerPrep(p).value, id)
    ensures Gone(p, id) || (id in p.hist && exists b: nat :: b < |p.hist[id]| && NotBefore(BytePos(id, b), Position(p))
                                                        && !InRam(WorkerPrep(p).value.stream.queue.frames, id, b))
  {
    hide Inv, TakeOutcome, Examine, IsDeleted, OnePass, InRam, PrepareWrite, Prep;
    var q := WorkerPrep(p).value;
    match p.job.last {
      case None =>
        PrepGivesUp(p);
        PrepStays(p.stream);
        assert Gone(p, id) || Missing(p, id);
      case Some(last) =>
        var o := TakeOutcome(p.stream, last.0, last.1);
        TakeOutcomeSafe(p, last.0, last.1);
        OutcomeMarks(p, last.0, last.1);
        OutcomeMoves(p.stream, last.0, last.1);
        var u := p.(stream := o.s, job := Queued(None));
        PrepAfter(p.stream, last.0, last.1);
        PrepGivesUp(u);
        PrepStays(u.stream);
        if u.stream.ws.file && Gone(u, id) {
          assert Gone(p, id);
        } else {
          assert last == (last.0, last.1) && Missing(u, id);
        }
    }
  }

  // -- recordings that leave RAM early -----------------------------------------------------------

  lemma WrittenFits(p: Pipe)
    requires Inv(p) && p.stream.ws.id in p.hist
    ensures p.stream.ws.written <= |p.hist[p.stream.ws.id]|
  {
    hide FramesOk, DbOk, FlushOk, RecsOk;
  }

  /** No byte of a recording that is not in RAM is. */
  lemma NoneInRam(p: Pipe, id: int, b: nat)
    requires Inv(p) && id < First(p)
    ensures !InRam(p.stream.queue.frames, id, b)
  {
    hide JobOk, DbOk, FlushOk, RecsOk, FrameOk;
    var fs := p.stream.queue.frames;
    forall i | 0 <= i < |fs| ensures fs[i].recordingId > id {
      if i > 0 {
        EndsIncrease(fs, 0, i);
      }
    }
  }

  /** The first byte of the recording that the worker has not passed. */
  function NextByte(p: Pipe, id: int): nat {
    if id == p.stream.ws.id then p.stream.ws.written else 0
  }

  /** A recording that the worker needs is popped only while it has bytes to write. */
  lemma PopGone(a: Pipe, id: int)
    requires Inv(a) && First(a) <= id && a.stream.ws.id <= id < First(a.(stream := MaybePrune(a.stream)))
    ensures id in a.hist && NextByte(a, id) < |a.hist[id]|
  {
    hide FramesOk, JobOk, DbOk, FlushOk, PopCount;
    var i := id - First(a);
    assert RecOk(a, i);
    assert Poppable(a.stream.recs[i], a.stream.queue, a.stream.ws);
    if id == a.stream.ws.id {
      WrittenFits(a);
    }
  }

  lemma GonePush(p: Pipe, sample: Bytes, isKey: bool, entry: int, id: int)
    requires Inv(p) && sample != [] && PushFrame(p, sample, isKey, entry).Some? && !Gone(p, id)
    requires Gone(PushFrame(p, sample, isKey, entry).value, id)
    ensures var q := PushFrame(p, sample, isKey, entry).value; NextByte(q, id) < |q.hist[id]|
  {
    hide FramesOk, JobOk, DbOk, FlushOk, PruneFront, MaybePrune, RecOk;
    AppendedSafe(p, sample, isKey, entry);
    if p.stream.recs != [] {
      LastRec(p);
    }
    var a := Appended(p, sample, isKey, entry);
    PruneFrontSafe(a, Pos(p.stream.ws));
    var t := a.(stream := a.stream.(queue := PruneFront(a.stream.queue, Pos(p.stream.ws))));
    SameWriter(t.stream);
    assert PushFrame(p, sample, isKey, entry).value == t.(stream := MaybePrune(t.stream));
    assert First(t) == First(p);
    PopGone(t, id);
  }

  lemma SameWriter(s: Stream)
    ensures MaybePrune(s).ws == s.ws && MaybePrune(s).complete == s.complete
  {
  }

  lemma GoneApply(p: Pipe, id: int)
    requires Inv(p) && p.flush.Committed? && !DeletesAborted(p) && ApplyFlush(p).Some? && !Gone(p, id)
    requires Gone(ApplyFlush(p).value, id)
    ensures var q := ApplyFlush(p).value; NextByte(q, id) < |q.hist[id]|
  {
    hide Inv, ApplyFlush, DeletesAborted, MaybePrune, MarkedAs;
    var marked := ApplyMarks(p);
    MarkedSafe(p, marked);
    var t := Marked(p, marked);
    SameWriter(t.stream);
    if p.flush.news != [] || p.flush.end.Some? {
      PopGone(t, id);
    }
  }

  lemma GonePrep(p: Pipe, id: int)
    requires Inv(p) && p.job.Queued? && p.stream.queue.lastGop <= |p.stream.queue.frames| && WorkerPrep(p).Some?
    requires !Gone(p, id) && Gone(WorkerPrep(p).value, id)
    ensures var q := WorkerPrep(p).value; NextByte(q, id) < |q.hist[id]|
  {
    hide FramesOk, JobOk, DbOk, FlushOk, TakeOutcome, Prep;
    PrepCounts(p);
    WorkerQueue(p);
    assert RecOk(p, id - First(p));
  }

  /** The worker's loop drops recordings only when an I/O failed, and then has written nothing of the
      next one. */
  lemma PrepCounts(p: Pipe)
    requires Inv(p) && p.job.Queued? && p.stream.queue.lastGop <= |p.stream.queue.frames| && WorkerPrep(p).Some?
    ensures var q := WorkerPrep(p).value;
            First(q) == First(p) || (q.stream.ws.written == 0 && First(q) >= First(p))
    ensures WorkerPrep(p).value.hist == p.hist
  {
    hide Inv, TakeOutcome, Examine, OnePass, Prep;
    match p.job.last {
      case None => PrepKeepsRecs(p.stream);
      case Some(last) =>
        var o := TakeOutcome(p.stream, last.0, last.1);
        InvFits(p);
        TakeOutcomeSafe(p, last.0, last.1);
        OutcomeCounts(p.stream, last.0, last.1);
        PrepAfter(p.stream, last.0, last.1);
        PrepKeepsRecs(o.s);
    }
  }

  lemma OutcomeCounts(s: Stream, id: int, outcome: Outcome)
    requires s.queue.lastGop <= |s.queue.frames|
    ensures var o := TakeOutcome(s, id, outcome);
            !o.Panic? ==> o.s.complete == s.complete && |o.s.recs| <= |s.recs| && (|o.s.recs| == |s.recs| || o.s.ws.written == 0)
  {
    hide PruneFront, Partition, PopCount;
  }

  lemma {:induction false} PrepKeepsRecs(s: Stream)
    requires s.queue.lastGop <= |s.queue.frames|
    ensures var r := Prep(s, None);
            !r.Panic? ==> r.s.complete == s.complete && |r.s.recs| == |s.recs| && (s.ws.written == 0 ==> r.s.ws.written == 0)
    decreases |s.recs| - Partition(s.recs, s.ws.id)
  {
    hide Examine, Partition;
    ExamineKeepsRecs(s);
    AbandonedMovesOn(s);
    match Examine(s)
    case Again(t) => PrepKeepsRecs(t);
    case done =>
  }

  lemma ExamineKeepsRecs(s: Stream)
    ensures var r := Examine(s);
            !r.Panic? ==> r.s.complete == s.complete && |r.s.recs| == |s.recs| && (s.ws.written == 0 ==> r.s.ws.written == 0)
  {
    hide PrepareWrite;
  }

  /** A step after which the worker's recording is no longer in RAM leaves a byte behind. */
  lemma GoneStep(p: Pipe, ev: Event, id: int)
    requires Inv(p) && Enabled(p, ev) && p.stream.queue.lastGop <= |p.stream.queue.frames|
    requires Step(p, ev).Some? && Gone(Step(p, ev).value, id) && !Gone(p, id)
    ensures var q := Step(p, ev).value; NextByte(q, id) < |q.hist[id]|
  {
    hide Inv, PushFrame, WorkerPrep, ApplyFlush, Inserted, Ready;
    match ev
    case Push(sample, isKey, entry, wake) => GonePush(p, sample, isKey, entry, id);
    case PrepStep => GonePrep(p, id);
    case Apply => GoneApply(p, id);
    case CloseRecording(sent) =>
    case _ =>
  }

  /** Every such recording has been that far behind. */
  lemma {:induction false} GoneInRun(run: seq<Pipe>, moves: seq<Move>, k: nat, id: int) returns (j: nat, b: nat)
    requires IsRun(run, moves) && k < |run| && Gone(run[k], id)
    ensures j < k && Overran(run[j], moves[j], id, b)
  {
    hide Inv, Step, Enabled, IsRun, InRam, FarBehind, Overran;
    RunStarts(run, moves);
    StepOf(run, moves, k - 1);
    if Gone(run[k - 1], id) {
      j, b := GoneInRun(run, moves, k - 1, id);
    } else {
      GoneStep(run[k - 1], moves[k - 1].event, id);
      RunInv(run, moves, k);
      b := NextByte(run[k], id);
      NoneInRam(run[k], id, b);
      j := LostInRun(run, moves, k, id, b);
    }
  }

  /** The worker gives up on a recording without a failed I/O only if, at this step or an earlier one of
      the run, more than 67,108,864 bytes were in RAM from a byte on that it had not passed. */
  lemma OnlyTheSlowLose(run: seq<Pipe>, moves: seq<Move>, k: nat, id: int) returns (j: nat, b: nat)
    requires IsRun(run, moves) && k < |moves| && moves[k] == Do(PrepStep) && GivesUp(run[k], run[k + 1], id)
    ensures j <= k && Overran(run[j], moves[j], id, b)
  {
    hide Inv, Step, IsRun, InRam, FarBehind, GivesUp, Gone, NotBefore, WorkerPrep, Position, Frames;
    RunStarts(run, moves);
    StepOf(run, moves, k);
    var p, q := run[k], run[k + 1];
    WorkerStep(p);
    WorkerGivesUp(p, id);
    if Gone(p, id) {
      j, b := GoneInRun(run, moves, k, id);
    } else {
      b :| b < |p.hist[id]| && NotBefore(BytePos(id, b), Position(p)) && !InRam(q.stream.queue.frames, id, b);
      var _ := QueueAfter(p, PrepStep);
      NotBeforeThrough(BytePos(id, b), Cut(p, PrepStep), Pos(p.stream.ws));
      Lost(p, PrepStep, id, b);
      if FarBehind(Frames(p, PrepStep), id, b) {
        j := k;
      } else {
        j := LostInRun(run, moves, k, id, b);
      }
    }
  }

  lemma WorkerStep(p: Pipe)
    requires p.stream.queue.lastGop <= |p.stream.queue.frames| && Enabled(p, PrepStep)
    ensures p.job.Queued? && Step(p, PrepStep) == WorkerPrep(p)
    ensures WorkerPrep(p).Some? ==> WorkerPrep(p).value.hist == p.hist
  {
    hide Prep;
  }

  // -- leaving RAM -------------------------------------------------------------------------------

  /** Who still needs the front recording: a frame at the front is of it or older, it waits for its
      commit, or the worker is about to sync it. */
  predicate FrontNeeded(s: Stream) {
    s.recs != [] ==>
      var r := s.recs[0];
      || (s.queue.frames != [] && s.queue.frames[0].recordingId <= r.id)
      || (r.id < s.ws.id && r.uncommitted && !r.deleted)
      || (r.id == s.ws.id && s.ws.written == r.bytes)
  }

  /** Unless a listing pins the recordings, a push or a flush lets every recording at the front go that
      no one needs. */
  lemma NoneStays(p: Pipe, ev: Event)
    requires Inv(p) && Enabled(p, ev) && p.stream.queue.lastGop <= |p.stream.queue.frames| && Step(p, ev).Some?
    requires !p.stream.pinned && (ev.Push? || (ev.Apply? && (p.flush.news != [] || p.flush.end.Some?)))
    ensures FrontNeeded(Step(p, ev).value.stream)
  {
    hide Inv, PruneFront, MaybePrune, FrontNeeded, ApplyFlush, DeletesAborted, MarkedAs;
    match ev {
      case Push(sample, isKey, entry, wake) =>
        AppendedSafe(p, sample, isKey, entry);
        var a := Appended(p, sample, isKey, entry);
        var t := a.stream.(queue := PruneFront(a.stream.queue, Pos(p.stream.ws)));
        if p.stream.recs != [] {
          LastRec(p);
        }
        PrunedFront(t);
        SameWriter(t);
        WakeKeepsFront(MaybePrune(t));
        assert PushFrame(p, sample, isKey, entry).value.stream == MaybePrune(t);
      case Apply =>
        var marked := ApplyMarks(p);
        PrunedFront(Marked(p, marked).stream);
    }
  }

  lemma PrunedFront(s: Stream)
    requires !s.pinned
    ensures FrontNeeded(MaybePrune(s))
  {
  }

  lemma WakeKeepsFront(s: Stream)
    requires FrontNeeded(s)
    ensures FrontNeeded(s.(ws := s.ws.(onWorker := true)))
  {
  }

  // -- the worker leaves only when it is done ----------------------------------------------------

  /** Of the recordings in RAM that the worker has not passed, there is at most the growing one, and all
      of its bytes so far are written. */
  ghost predicate NothingToDo(s: Stream) {
    forall i | 0 <= i < |s.recs| && s.ws.id <= s.recs[i].id ::
      s.recs[i].id == s.ws.id && s.recs[i].growing && s.ws.written == s.recs[i].bytes
  }

  lemma ExamineIdle(p: Pipe)
    requires Inv(p) && p.job == Queued(None)
    ensures Examine(p.stream).Idle? ==> NothingToDo(Examine(p.stream).s)
  {
    hide FramesOk, DbOk, FlushOk, Partition, PrepareWrite, FrameOk;
    var s := p.stream;
    var i := Partition(s.recs, s.ws.id);
    PartitionIs(p, s.ws.id);
    if i < |s.recs| {
      assert RecOk(p, i);
      if s.recs[i].id == s.ws.id || s.ws.written == 0 {
        WrittenAll(p, i);
      }
    }
  }

  lemma WrittenAll(p: Pipe, i: nat)
    requires Inv(p) && p.job == Queued(None) && i < |p.stream.recs| && p.stream.ws.id <= p.stream.recs[i].id
    requires p.stream.ws.id == p.stream.recs[i].id || p.stream.ws.written == 0
    ensures var r, s := p.stream.recs[i], p.stream;
            PrepareWrite(r, s.queue.frames, s.ws.written) == Some([]) ==> s.ws.written == r.bytes
  {
    hide DbOk, FlushOk, JobOk, PrepareWrite, FrameOk;
    var r, s := p.stream.recs[i], p.stream;
    assert RecOk(p, i);
    if s.ws.id == r.id {
      WrittenFits(p);
    }
    PrepareWriteExact(r, s.queue.frames, p.hist, s.ws.written);
  }

  lemma {:induction false} PrepIdle(p: Pipe)
    requires Inv(p) && p.job == Queued(None) && p.stream.queue.lastGop <= |p.stream.queue.frames|
    ensures Prep(p.stream, None).Idle? ==> NothingToDo(Prep(p.stream, None).s)
    decreases |p.stream.recs| - Partition(p.stream.recs, p.stream.ws.id)
  {
    hide Inv, Examine, Partition, NothingToDo;
    ExamineIdle(p);
    ExamineSafe(p);
    AbandonedMovesOn(p.stream);
    match Examine(p.stream)
    case Again(t) => PrepIdle(p.(stream := t, job := Queued(None)));
    case done =>
  }

  /** The worker goes off a stream only when there is nothing left to write or to sync. */
  lemma WorkerLeavesDone(p: Pipe)
    requires Inv(p) && p.job.Queued? && p.stream.queue.lastGop <= |p.stream.queue.frames| && WorkerPrep(p).Some?
    ensures WorkerPrep(p).value.job == Off ==> NothingToDo(WorkerPrep(p).value.stream)
  {
    hide Inv, TakeOutcome, Examine, OnePass, Prep;
    match p.job.last {
      case None => PrepIdle(p);
      case Some(last) =>
        InvFits(p);
        TakeOutcomeSafe(p, last.0, last.1);
        PrepAfter(p.stream, last.0, last.1);
        PrepIdle(p.(stream := TakeOutcome(p.stream, last.0, last.1).s, job := Queued(None)));
    }
  }
}
