/** Runs in which documented rules fail. A recording is aborted, and the next one, which does not start
    with a key frame, is committed and then deleted while the first is still in RAM: first UNCOMMITTED is
    wrong, then the flush panics. And a growing recording is abandoned. */
module PipePanic {
  import opened Base
  import opened RecentFrames
  import opened StreamState
  import opened Pipe
  import opened PipeInv
  import opened PipeSafe
  import opened PipeKeys

  /** The state after a run of steps, each of which was possible; `None` otherwise. */
  ghost function Play(p: Pipe, events: seq<Event>): Option<Pipe>
    decreases |events|
  {
    if events == [] then Some(p)
    else match Play(p, events[..|events| - 1])
      case None => None
      case Some(q) =>
        var ev := events[|events| - 1];
        if q.stream.queue.lastGop <= |q.stream.queue.frames| && Enabled(q, ev) then Step(q, ev) else None
  }

  lemma PlayMore(p: Pipe, events: seq<Event>, ev: Event, q: Pipe)
    requires Play(p, events) == Some(q) && q.stream.queue.lastGop <= |q.stream.queue.frames| && Enabled(q, ev)
    ensures Play(p, events + [ev]) == Step(q, ev)
  {
    assert (events + [ev])[..|events|] == events;
  }

  /** A stream that was just added. */
  const FRESH: Pipe :=
    Pipe(Stream([], false, Queue([], 0), WriterState(0, 0, false, false), 0, 0, 0),
         None, Off, map[], map[], map[], 0, {}, {}, None, NoFlush)

  const FIRST: Frame := Frame(0, 0, [1], true)
  const SECOND: Frame := Frame(1, 0, [2], false)

  /** The first recording was aborted since its file could not be created. */
  const ABORTED: Rec := Rec(0, false, true, true, 1, 7)
  const SECOND_REC: Rec := Rec(1, false, false, true, 1, 7)

  const ONE: Queue := Queue([FIRST], 0)
  const TWO: Queue := Queue([FIRST, SECOND], 0)
  const DATA1: map<int, Bytes> := map[0 := [1]]
  const DATA2: map<int, Bytes> := map[0 := [1], 1 := [2]]
  const STORED: map<int, File> := map[1 := File([2], true)]

  lemma NothingPruned(q: Queue, pos: BytePos)
    requires q.lastGop == 0
    ensures PruneFront(q, pos) == q
  {
  }

  lemma NothingPopped(s: Stream)
    requires s.recs != [] && s.queue.frames != [] && s.recs[0].id >= s.queue.frames[0].recordingId
    ensures MaybePrune(s) == s
  {
  }

  lemma SearchFinds(recs: seq<Rec>, id: int)
    ensures |recs| == 1 ==> Partition(recs, id) == if recs[0].id < id then 1 else 0
    ensures |recs| == 2 ==> Partition(recs, id) == if recs[0].id >= id then 0 else if recs[1].id < id then 2 else 1
  {
    if |recs| == 2 {
      assert |recs[1..]| == 1;
    }
  }

  /** A recording with one frame is written as one chunk. */
  lemma OneChunk(fs: seq<Frame>, k: nat, r: Rec)
    requires k + 1 == |fs| <= 2 && (k == 1 ==> fs[0].recordingId < fs[1].recordingId)
    requires fs[k].recordingId == r.id && fs[k].start == 0 && fs[k].sample != []
    ensures PrepareWrite(r, fs, 0) == Some([fs[k].sample])
  {
    var i := Skip(fs, BytePos(r.id, 0));
    assert i == k;
    assert fs[k].sample[0 - fs[k].start..] == fs[k].sample;
    assert ChunksFrom(fs, k + 1, r.id, MAX_CHUNKS - 1) == [];
    assert [fs[k].sample] + [] == [fs[k].sample];
  }

  // -- the first recording is aborted ------------------------------------------------------------

  const PUSHED: Pipe :=
    Pipe(Stream([Rec(0, true, false, true, 1, 7)], false, ONE, WriterState(0, 0, false, false), 0, 0, 0),
         Some(0), Off, DATA1, map[], map[], 0, {}, {}, None, NoFlush)

  lemma Pushes()
    ensures Step(FRESH, Push([1], true, 7, None)) == Some(PUSHED)
  {
    hide PruneFront, MaybePrune;
    var queue := Pushed(FRESH.stream.queue, FIRST);
    NothingPruned(queue, Pos(FRESH.stream.ws));
    assert queue.frames == [FIRST];
    var recs := [Rec(0, true, false, true, 1, 7)];
    assert ([] + [Rec(0, true, false, true, 0, 7)])[0 := Rec(0, true, false, true, 1, 7)] == recs;
    NothingPopped(FRESH.stream.(recs := recs, queue := queue));
    assert Data(FRESH, 0) + [1] == [1];
  }

  const CLOSED: Pipe :=
    Pipe(Stream([Rec(0, false, false, true, 1, 7)], false, ONE, WriterState(0, 0, false, true), 0, 0, 1),
         None, Queued(None), DATA1, map[], map[], 0, {}, {}, None, NoFlush)

  lemma Closes()
    ensures Step(PUSHED, CloseRecording(true)) == Some(CLOSED)
  {
    assert PUSHED.stream.recs[0 := Rec(0, false, false, true, 1, 7)] == CLOSED.stream.recs;
  }

  const OPENING: Pipe :=
    Pipe(Stream([Rec(0, false, false, true, 1, 7)], false, ONE, WriterState(0, 0, false, true), 0, 0, 1),
         None, Doing(0, Write(false, [[1]])), DATA1, map[], map[], 0, {}, {}, None, NoFlush)

  lemma Opens()
    ensures Step(CLOSED, PrepStep) == Some(OPENING)
  {
    hide Partition, PrepareWrite;
    SearchFinds(CLOSED.stream.recs, 0);
    OneChunk([FIRST], 0, CLOSED.stream.recs[0]);
    assert Examine(CLOSED.stream) == Go(CLOSED.stream, 0, Write(false, [[1]]));
  }

  const FAILED: Pipe :=
    Pipe(Stream([Rec(0, false, false, true, 1, 7)], false, ONE, WriterState(0, 0, false, true), 0, 0, 1),
         None, Queued(Some((0, Aborted))), DATA1, map[], map[], 0, {}, {}, None, NoFlush)

  lemma CannotOpen()
    ensures Enabled(OPENING, Io(OpenFailed)) && Step(OPENING, Io(OpenFailed)) == Some(FAILED)
  {
  }

  const ABANDONED: Pipe :=
    Pipe(Stream([ABORTED], false, ONE, WriterState(1, 0, false, false), 0, 0, 1),
         None, Off, DATA1, map[], map[], 0, {}, {}, None, NoFlush)

  lemma Aborts()
    ensures Step(FAILED, PrepStep) == Some(ABANDONED)
  {
    hide Partition, PruneFront, MaybePrune;
    SearchFinds(FAILED.stream.recs, 0);
    SearchFinds([ABORTED], 1);
    assert MarkDeleted(FAILED.stream.recs, 0) == [ABORTED];
    var next := MoveOn(FAILED.stream.(recs := [ABORTED]), 0);
    NothingPruned(next.queue, Pos(next.ws));
    NothingPopped(next);
    assert TakeOutcome(FAILED.stream, 0, Aborted) == Again(next);
    assert Examine(next) == Idle(next);
    assert Prep(next, None) == Idle(next);
  }

  // -- the second is written and committed -------------------------------------------------------

  const PUSHED2: Pipe :=
    Pipe(Stream([ABORTED, Rec(1, true, false, true, 1, 7)], false, TWO, WriterState(1, 0, false, false), 0, 0, 1),
         Some(1), Off, DATA2, map[], map[], 0, {}, {}, None, NoFlush)

  lemma PushesAgain()
    ensures Step(ABANDONED, Push([2], false, 7, None)) == Some(PUSHED2)
  {
    hide PruneFront, MaybePrune;
    var queue := Pushed(ABANDONED.stream.queue, SECOND);
    NothingPruned(queue, Pos(ABANDONED.stream.ws));
    assert queue.frames == [FIRST, SECOND];
    var recs := [ABORTED, Rec(1, true, false, true, 1, 7)];
    assert ([ABORTED] + [Rec(1, true, false, true, 0, 7)])[1 := Rec(1, true, false, true, 1, 7)] == recs;
    NothingPopped(ABANDONED.stream.(recs := recs, queue := queue));
    assert Data(ABANDONED, 1) + [2] == [2];
  }

  const CLOSED2: Pipe :=
    Pipe(Stream([ABORTED, SECOND_REC], false, TWO, WriterState(1, 0, false, true), 0, 0, 2),
         None, Queued(None), DATA2, map[], map[], 0, {}, {}, None, NoFlush)

  lemma ClosesAgain()
    ensures Step(PUSHED2, CloseRecording(true)) == Some(CLOSED2)
  {
    assert PUSHED2.stream.recs[1 := Rec(1, false, false, true, 1, 7)] == CLOSED2.stream.recs;
  }

  const OPENING2: Pipe :=
    Pipe(Stream([ABORTED, SECOND_REC], false, TWO, WriterState(1, 0, false, true), 0, 0, 2),
         None, Doing(1, Write(false, [[2]])), DATA2, map[], map[], 0, {}, {}, None, NoFlush)

  lemma OpensAgain()
    ensures Step(CLOSED2, PrepStep) == Some(OPENING2)
  {
    hide Partition, PrepareWrite;
    SearchFinds(CLOSED2.stream.recs, 1);
    OneChunk([FIRST, SECOND], 1, CLOSED2.stream.recs[1]);
    assert Examine(CLOSED2.stream) == Go(CLOSED2.stream, 1, Write(false, [[2]]));
  }

  const WROTE: Pipe :=
    Pipe(Stream([ABORTED, SECOND_REC], false, TWO, WriterState(1, 0, false, true), 0, 0, 2),
         None, Queued(Some((1, Written(1)))), DATA2, map[1 := File([2], false)], map[], 0, {}, {}, None, NoFlush)

  lemma Writes()
    ensures Enabled(OPENING2, Io(Wrote(1))) && Step(OPENING2, Io(Wrote(1))) == Some(WROTE)
  {
    var chunks: seq<Bytes> := [[2]];
    assert chunks[1..] == [];
    assert Flatten(chunks) == [2] + Flatten([]) == [2];
    var none: Bytes := [];
    assert none + [2][..1] == [2];
  }

  const SYNCING: Pipe :=
    Pipe(Stream([ABORTED, SECOND_REC], false, TWO, WriterState(1, 1, false, true), 0, 0, 2),
         None, Doing(1, Sync), DATA2, map[1 := File([2], false)], map[], 0, {}, {}, None, NoFlush)

  lemma Finishes()
    ensures Step(WROTE, PrepStep) == Some(SYNCING)
  {
    hide Partition, PruneFront;
    SearchFinds(WROTE.stream.recs, 1);
    var t := WROTE.stream.(ws := WriterState(1, 1, true, true));
    NothingPruned(t.queue, Pos(t.ws));
    assert TakeOutcome(WROTE.stream, 1, Written(1)) == Idle(t);
    assert Skip(t.queue.frames, BytePos(1, 1)) == 2;
    assert PrepareWrite(t.recs[1], t.queue.frames, 1) == Some([]);
    assert Examine(t) == Go(SYNCING.stream, 1, Sync);
  }

  const SYNCED: Pipe :=
    Pipe(Stream([ABORTED, SECOND_REC], false, TWO, WriterState(1, 1, false, true), 0, 0, 2),
         None, Queued(Some((1, Synced))), DATA2, STORED, map[], 0, {}, {}, None, NoFlush)

  lemma Syncs()
    ensures Enabled(SYNCING, Io(SyncDone)) && Step(SYNCING, Io(SyncDone)) == Some(SYNCED)
  {
    assert SYNCING.files[1 := File([2], true)] == SYNCED.files;
  }

  const WRITTEN: Pipe :=
    Pipe(Stream([ABORTED, SECOND_REC], false, TWO, WriterState(2, 0, false, false), 0, 0, 2),
         None, Off, DATA2, STORED, map[], 0, {}, {}, None, NoFlush)

  lemma Settles()
    ensures Step(SYNCED, PrepStep) == Some(WRITTEN)
  {
    hide Partition, PruneFront;
    SearchFinds(SYNCED.stream.recs, 1);
    SearchFinds(SYNCED.stream.recs, 2);
    var next := MoveOn(SYNCED.stream, 1);
    NothingPruned(next.queue, Pos(next.ws));
    assert TakeOutcome(SYNCED.stream, 1, Synced) == Again(next);
    assert Examine(next) == Idle(next);
    assert Prep(next, None) == Idle(next);
  }

  const READY: Pipe :=
    Pipe(Stream([ABORTED, SECOND_REC], false, TWO, WriterState(2, 0, false, false), 2, 0, 2),
         None, Off, DATA2, STORED, map[], 0, {}, {}, None, NoFlush)
  const GATHERED: Pipe :=
    Pipe(Stream([ABORTED, SECOND_REC], false, TWO, WriterState(2, 0, false, false), 2, 0, 2),
         None, Off, DATA2, STORED, map[], 0, {}, {}, None, Gathered([SECOND_REC], None))

  lemma Gathers()
    ensures Step(READY, Gather) == Some(GATHERED)
  {
    assert READY.stream.recs == [ABORTED] + [SECOND_REC];
    assert READY.stream.recs[1..] == [SECOND_REC];
    assert Ready([SECOND_REC], 0, 2) == [SECOND_REC] + Ready([], 0, 2);
    assert Ready(READY.stream.recs, 0, 2) == [] + [SECOND_REC];
    assert [] + [SECOND_REC] == [SECOND_REC];
  }

  const INSERTED: Pipe :=
    Pipe(Stream([ABORTED, SECOND_REC], false, TWO, WriterState(2, 0, false, false), 2, 0, 2),
         None, Off, DATA2, STORED, map[1 := Row(1, 7, [2])], 2, {}, {}, None, Committed([SECOND_REC], None, {}))

  lemma Inserts()
    ensures Enabled(GATHERED, Commit({})) && Step(GATHERED, Commit({})) == Some(INSERTED)
  {
    var none: seq<Rec> := [];
    assert [SECOND_REC][..0] == none;
    assert Inserted(map[], [SECOND_REC], GATHERED.hist) == Inserted(map[], none, GATHERED.hist)[1 := Row(1, 7, [2])];
    assert Before(INSERTED.rows, None) == {};
    assert INSERTED.rows - {} == INSERTED.rows;
    assert (GATHERED.garbage - {}) + {} == {};
    assert forall r | r in [SECOND_REC] :: r == SECOND_REC;
  }

  const MARKED: Pipe :=
    Pipe(Stream([ABORTED, Rec(1, false, false, false, 1, 7)], false, TWO, WriterState(2, 0, false, false), 2, 2, 2),
         None, Off, DATA2, STORED, map[1 := Row(1, 7, [2])], 2, {}, {}, None, NoFlush)

  lemma MarksSecond()
    ensures !DeletesAborted(INSERTED) && Step(INSERTED, Apply) == Some(MARKED)
  {
    hide MaybePrune;
    var marked := MarkCommitted(INSERTED.stream.recs, 0, 2);
    assert INSERTED.stream.recs[0] == ABORTED && INSERTED.stream.recs[1] == SECOND_REC;
    assert marked.Some? && marked.value == MARKED.stream.recs;
    NothingPopped(MARKED.stream);
    assert INSERTED.handed + {} == MARKED.handed;
  }

  // -- the second is deleted ---------------------------------------------------------------------

  const QUEUED: Pipe :=
    Pipe(Stream([ABORTED, Rec(1, false, false, false, 1, 7)], false, TWO, WriterState(2, 0, false, false), 2, 2, 2),
         None, Off, DATA2, STORED, map[1 := Row(1, 7, [2])], 2, {}, {}, Some(2), NoFlush)
  const GATHERED2: Pipe :=
    Pipe(Stream([ABORTED, Rec(1, false, false, false, 1, 7)], false, TWO, WriterState(2, 0, false, false), 2, 2, 2),
         None, Off, DATA2, STORED, map[1 := Row(1, 7, [2])], 2, {}, {}, Some(2), Gathered([], Some(2)))

  lemma GathersNothing()
    ensures Step(QUEUED, Gather) == Some(GATHERED2)
  {
    assert forall r | r in QUEUED.stream.recs :: !IsReady(r, 2, 2);
    assert QUEUED.stream.recs == [ABORTED] + [Rec(1, false, false, false, 1, 7)];
    assert QUEUED.stream.recs[1..] == [Rec(1, false, false, false, 1, 7)];
    assert Ready(QUEUED.stream.recs[1..], 2, 2) == [] + Ready([], 2, 2);
    assert Ready(QUEUED.stream.recs, 2, 2) == [] + [];
  }

  const DELETED: Pipe :=
    Pipe(Stream([ABORTED, Rec(1, false, false, false, 1, 7)], false, TWO, WriterState(2, 0, false, false), 2, 2, 2),
         None, Off, DATA2, STORED, map[], 2, {1}, {}, Some(2), Committed([], Some(2), {1}))

  lemma Deletes()
    ensures Enabled(GATHERED2, Commit({})) && Step(GATHERED2, Commit({})) == Some(DELETED)
  {
    assert Before(GATHERED2.rows, Some(2)) == {1};
    assert GATHERED2.rows - {1} == map[];
    assert (GATHERED2.garbage - {}) + {1} == {1};
  }

  lemma Panics()
    ensures DeletesAborted(DELETED) && ApplyFlush(DELETED).None?
  {
    assert DELETED.stream.recs[0] == ABORTED;
  }

  lemma Then(events: seq<Event>, ev: Event, before: Pipe, after: Pipe) returns (more: seq<Event>)
    requires Play(FRESH, events) == Some(before) && before.stream.queue.lastGop <= |before.stream.queue.frames|
    requires Enabled(before, ev) && Step(before, ev) == Some(after)
    ensures Play(FRESH, more) == Some(after)
  {
    more := events + [ev];
    PlayMore(FRESH, events, ev, before);
  }

  lemma FirstPart() returns (events: seq<Event>)
    ensures Play(FRESH, events) == Some(ABANDONED)
  {
    hide PushFrame, CloseRec, WorkerPrep, Wake;
    events := [];
    Pushes();
    events := Then(events, Push([1], true, 7, None), FRESH, PUSHED);
    Closes();
    events := Then(events, CloseRecording(true), PUSHED, CLOSED);
    Opens();
    events := Then(events, PrepStep, CLOSED, OPENING);
    CannotOpen();
    events := Then(events, Io(OpenFailed), OPENING, FAILED);
    Aborts();
    events := Then(events, PrepStep, FAILED, ABANDONED);
  }

  lemma SecondPart() returns (events: seq<Event>)
    ensures Play(FRESH, events) == Some(WRITTEN)
  {
    hide PushFrame, CloseRec, WorkerPrep, Wake, WorkerIo;
    events := FirstPart();
    PushesAgain();
    events := Then(events, Push([2], false, 7, None), ABANDONED, PUSHED2);
    ClosesAgain();
    events := Then(events, CloseRecording(true), PUSHED2, CLOSED2);
    OpensAgain();
    events := Then(events, PrepStep, CLOSED2, OPENING2);
    Writes();
    events := Then(events, Io(Wrote(1)), OPENING2, WROTE);
    Finishes();
    events := Then(events, PrepStep, WROTE, SYNCING);
    Syncs();
    events := Then(events, Io(SyncDone), SYNCING, SYNCED);
    Settles();
    events := Then(events, PrepStep, SYNCED, WRITTEN);
  }

  lemma ThirdPart() returns (events: seq<Event>)
    ensures Play(FRESH, events) == Some(MARKED)
  {
    hide GatherStream, CommitTx, ApplyFlush, DeletesAborted;
    events := SecondPart();
    events := Then(events, Notify, WRITTEN, READY);
    Gathers();
    events := Then(events, Gather, READY, GATHERED);
    Inserts();
    events := Then(events, Commit({}), GATHERED, INSERTED);
    MarksSecond();
    events := Then(events, Apply, INSERTED, MARKED);
  }

  /** From a fresh stream, steps that are all possible lead to an UNCOMMITTED recording before the
      committed count. */
  lemma FlagsCanBeWrong() returns (events: seq<Event>)
    ensures Play(FRESH, events).Some?
    ensures var s := Play(FRESH, events).value.stream;
            s.recs != [] && !FlagRule(s.recs[0], s) && AbortedBefore(s.recs[0], s)
  {
    hide Play;
    events := ThirdPart();
  }

  /** Further steps lead to a flush that panics. */
  lemma FlushCanPanic() returns (events: seq<Event>)
    ensures Play(FRESH, events).Some?
    ensures Play(FRESH, events).value.flush.Committed? && ApplyFlush(Play(FRESH, events).value).None?
  {
    hide GatherStream, CommitTx, ApplyFlush, DeletesAborted;
    events := ThirdPart();
    events := Then(events, QueueDelete(2), MARKED, QUEUED);
    GathersNothing();
    events := Then(events, Gather, QUEUED, GATHERED2);
    Deletes();
    events := Then(events, Commit({}), GATHERED2, DELETED);
    Panics();
  }

  // -- a growing recording is abandoned ----------------------------------------------------------

  const AWAKE: Pipe :=
    Pipe(Stream([Rec(0, true, false, true, 1, 7)], false, ONE, WriterState(0, 0, false, true), 0, 0, 0),
         Some(0), Queued(None), DATA1, map[], map[], 0, {}, {}, None, NoFlush)
  const AWAKE_OPENING: Pipe :=
    Pipe(Stream([Rec(0, true, false, true, 1, 7)], false, ONE, WriterState(0, 0, false, true), 0, 0, 0),
         Some(0), Doing(0, Write(false, [[1]])), DATA1, map[], map[], 0, {}, {}, None, NoFlush)
  const AWAKE_FAILED: Pipe :=
    Pipe(Stream([Rec(0, true, false, true, 1, 7)], false, ONE, WriterState(0, 0, false, true), 0, 0, 0),
         Some(0), Queued(Some((0, Aborted))), DATA1, map[], map[], 0, {}, {}, None, NoFlush)
  const GIVEN_UP: Pipe :=
    Pipe(Stream([Rec(0, true, true, true, 1, 7)], false, ONE, WriterState(1, 0, false, false), 0, 0, 0),
         Some(0), Off, DATA1, map[], map[], 0, {}, {}, None, NoFlush)

  lemma PushesAndWakes()
    ensures Step(FRESH, Push([1], true, 7, Some(true))) == Some(AWAKE)
  {
    hide PushFrame;
    Pushes();
    assert PushFrame(FRESH, [1], true, 7) == Some(PUSHED);
  }

  lemma OpensGrowing()
    ensures Step(AWAKE, PrepStep) == Some(AWAKE_OPENING)
  {
    hide Partition, PrepareWrite;
    SearchFinds(AWAKE.stream.recs, 0);
    OneChunk([FIRST], 0, AWAKE.stream.recs[0]);
    assert Examine(AWAKE.stream) == Go(AWAKE.stream, 0, Write(false, [[1]]));
  }

  lemma CannotOpenGrowing()
    ensures Enabled(AWAKE_OPENING, Io(OpenFailed)) && Step(AWAKE_OPENING, Io(OpenFailed)) == Some(AWAKE_FAILED)
  {
  }

  lemma GivesUp()
    ensures Step(AWAKE_FAILED, PrepStep) == Some(GIVEN_UP)
  {
    hide Partition, PruneFront, MaybePrune;
    SearchFinds(AWAKE_FAILED.stream.recs, 0);
    SearchFinds(GIVEN_UP.stream.recs, 1);
    assert MarkDeleted(AWAKE_FAILED.stream.recs, 0) == GIVEN_UP.stream.recs;
    var next := MoveOn(AWAKE_FAILED.stream.(recs := GIVEN_UP.stream.recs), 0);
    NothingPruned(next.queue, Pos(next.ws));
    NothingPopped(next);
    assert TakeOutcome(AWAKE_FAILED.stream, 0, Aborted) == Again(next);
    assert Examine(next) == Idle(next);
    assert Prep(next, None) == Idle(next);
  }

  /** A run after which the worker's position is past the complete count. */
  lemma GrowingCanBeAbandoned() returns (events: seq<Event>)
    ensures Play(FRESH, events).Some?
    ensures var p := Play(FRESH, events).value; GrowingAbandoned(p) && p.stream.ws.id > p.stream.complete
  {
    hide PushFrame, WorkerPrep, Wake;
    events := [];
    PushesAndWakes();
    events := Then(events, Push([1], true, 7, Some(true)), FRESH, AWAKE);
    OpensGrowing();
    events := Then(events, PrepStep, AWAKE, AWAKE_OPENING);
    CannotOpenGrowing();
    events := Then(events, Io(OpenFailed), AWAKE_OPENING, AWAKE_FAILED);
    GivesUp();
    events := Then(events, PrepStep, AWAKE_FAILED, GIVEN_UP);
  }
}
