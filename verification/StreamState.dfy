/** What a stream's lock protects (server/db/stream/mod.rs, server/db/dir/writer.rs), as values: the
    specification that the methods of `LockedStream` meet and the protocol is stated over. */
module StreamState {
  import opened Base
  import opened RecentFrames

  /** `RecentRecording` with the flags GROWING, DELETED and UNCOMMITTED; `entry` is the video sample
      entry id. */
  datatype Rec = Rec(id: int, growing: bool, deleted: bool, uncommitted: bool, bytes: nat, entry: int)

  /** `recent_frames`. */
  datatype Queue = Queue(frames: seq<Frame>, lastGop: nat)

  /** `dir::writer::State`. */
  datatype WriterState = WriterState(id: int, written: nat, file: bool, onWorker: bool)

  datatype Stream = Stream(recs: seq<Rec>, pinned: bool, queue: Queue, ws: WriterState,
                           flushReady: int, committed: int, complete: int)

  function Pos(ws: WriterState): BytePos {
    BytePos(ws.id, ws.written)
  }

  // -- the frame queue -----------------------------------------------------------------------

  ghost predicate ValidQueue(q: Queue) {
    && Contiguous(q.frames) && (if q.frames == [] then q.lastGop == 0 else q.lastGop < |q.frames|)
    && NewestGroup(q.frames, q.lastGop)
  }

  function Pushed(q: Queue, f: Frame): Queue {
    Queue(q.frames + [f], if f.isKey then |q.frames| else q.lastGop)
  }

  function PruneFront(q: Queue, pos: BytePos): (r: Queue)
    requires q.lastGop <= |q.frames|
    ensures r.lastGop <= |r.frames|
  {
    var k := PruneCount(q.frames, q.lastGop, pos);
    Queue(q.frames[k..], q.lastGop - k)
  }

  /** Pruning drops a prefix and never the newest frame. */
  lemma PruneFrontKeeps(q: Queue, pos: BytePos) returns (k: nat)
    requires ValidQueue(q)
    ensures ValidQueue(PruneFront(q, pos))
    ensures k <= |q.frames| && PruneFront(q, pos).frames == q.frames[k..]
    ensures q.frames != [] ==> k < |q.frames|
  {
    k := PruneCount(q.frames, q.lastGop, pos);
    Dropped(q.frames, k);
  }

  /** Pruning drops a frame only if it is before the newest key frame and is either all before `pos`
      or followed, itself included, by more than 67,108,864 bytes; and it drops all such frames up to
      the first that is not. */
  lemma PruneFrontExactly(q: Queue, pos: BytePos)
    requires ValidQueue(q)
    ensures var r := PruneFront(q, pos);
            var k := |q.frames| - |r.frames|;
            && 0 <= k <= |q.frames| && r == Queue(q.frames[k..], q.lastGop - k)
            && (forall i | 0 <= i < k :: i < q.lastGop && q.frames[q.lastGop].isKey && Expendable(q.frames, i, pos))
            && (0 < r.lastGop ==> !Expendable(r.frames, 0, pos))
  {
    PruneCountIs(q.frames, q.lastGop, pos);
    var k := PruneCount(q.frames, q.lastGop, pos);
    assert k < |q.frames| ==> q.frames[k..][0] == q.frames[k];
    assert q.frames[k..][0..] == q.frames[k..];
  }

  // -- recent recordings ---------------------------------------------------------------------

  /** How many recordings at the front come before `id` (`partition_point`). */
  function Partition(recs: seq<Rec>, id: int): (i: nat)
    ensures i <= |recs|
    ensures forall j | 0 <= j < i :: recs[j].id < id
    ensures i < |recs| ==> id <= recs[i].id
  {
    if recs != [] && recs[0].id < id then 1 + Partition(recs[1..], id) else 0
  }

  /** The tests `maybe_prune_recent_recordings` makes of the front recording. */
  predicate Poppable(r: Rec, q: Queue, ws: WriterState) {
    && (q.frames != [] ==> r.id < q.frames[0].recordingId)
    && (r.id < ws.id ==> r.deleted || !r.uncommitted)
    && (r.id == ws.id ==> ws.written != r.bytes)
  }

  function PopCount(recs: seq<Rec>, q: Queue, ws: WriterState): (k: nat)
    ensures k <= |recs|
    ensures forall i | 0 <= i < k :: Poppable(recs[i], q, ws)
    ensures k < |recs| ==> !Poppable(recs[k], q, ws)
  {
    if recs != [] && Poppable(recs[0], q, ws) then 1 + PopCount(recs[1..], q, ws) else 0
  }

  /** `maybe_prune_recent_recordings`. */
  function MaybePrune(s: Stream): Stream {
    if s.pinned then s else s.(recs := s.recs[PopCount(s.recs, s.queue, s.ws)..])
  }

  /** `delete_until`; `None` is its failed assertion. */
  function DeleteUntil(recs: seq<Rec>, end: int): (r: Option<seq<Rec>>)
    ensures r.Some? <==> forall i | 0 <= i < Partition(recs, end) :: !recs[i].uncommitted
    ensures r.Some? ==> |r.value| == |recs| && forall i | 0 <= i < |recs| ::
      r.value[i] == if i < Partition(recs, end) then recs[i].(deleted := true) else recs[i]
  {
    if recs != [] && recs[0].id < end then
      if recs[0].uncommitted then None
      else match DeleteUntil(recs[1..], end)
        case None => None
        case Some(rest) => Some([recs[0].(deleted := true)] + rest)
    else Some(recs)
  }

  /** Which recordings `flush` gathers. */
  predicate IsReady(r: Rec, committed: int, flushReady: int) {
    committed <= r.id < flushReady && !r.deleted
  }

  function Ready(recs: seq<Rec>, committed: int, flushReady: int): seq<Rec> {
    if recs == [] then []
    else (if IsReady(recs[0], committed, flushReady) then [recs[0]] else []) + Ready(recs[1..], committed, flushReady)
  }

  lemma {:induction false} ReadyHas(recs: seq<Rec>, committed: int, flushReady: int)
    ensures forall r :: r in Ready(recs, committed, flushReady) <==> r in recs && IsReady(r, committed, flushReady)
  {
    if recs != [] {
      ReadyHas(recs[1..], committed, flushReady);
      assert recs == [recs[0]] + recs[1..];
    }
  }

  /** A file's size in whole blocks of the filesystem. */
  function RoundUp(bytes: nat): (n: nat)
    ensures bytes <= n < bytes + 4096 && n % 4096 == 0
  {
    (bytes + 4095) / 4096 * 4096
  }

  /** The commit's marking loop: recordings below `end` that are not deleted lose UNCOMMITTED;
      `None` is its failed assertion. */
  function MarkCommitted(recs: seq<Rec>, committed: int, end: int): (r: Option<seq<Rec>>)
    ensures r.Some? <==> forall i | 0 <= i < |recs| && IsReady(recs[i], committed, end) :: recs[i].uncommitted
    ensures r.Some? ==> |r.value| == |recs| && forall i | 0 <= i < |recs| ::
      r.value[i] == if IsReady(recs[i], committed, end) then recs[i].(uncommitted := false) else recs[i]
  {
    if recs == [] then Some([])
    else if IsReady(recs[0], committed, end) && !recs[0].uncommitted then None
    else
      var first := if IsReady(recs[0], committed, end) then recs[0].(uncommitted := false) else recs[0];
      match MarkCommitted(recs[1..], committed, end)
      case None =>
        assert exists i :: 0 <= i < |recs[1..]| && IsReady(recs[1..][i], committed, end) && !recs[1..][i].uncommitted;
        var i :| 0 <= i < |recs[1..]| && IsReady(recs[1..][i], committed, end) && !recs[1..][i].uncommitted;
        assert IsReady(recs[i + 1], committed, end);
        None
      case Some(rest) => Some([first] + rest)
  }

  // -- the worker's prep step ----------------------------------------------------------------

  /** The first frame that ends after `pos`, or the number of frames. */
  function Skip(fs: seq<Frame>, pos: BytePos): (k: nat)
    ensures k <= |fs|
    ensures forall j | 0 <= j < k :: !Less(pos, EndOf(fs[j]))
    ensures k < |fs| ==> Less(pos, EndOf(fs[k]))
  {
    if fs == [] || Less(pos, EndOf(fs[0])) then 0 else 1 + Skip(fs[1..], pos)
  }

  const MAX_CHUNKS: nat := 32

  function ChunksFrom(fs: seq<Frame>, i: nat, id: int, room: nat): (chunks: seq<Bytes>)
    requires i <= |fs|
    ensures |chunks| <= room && i + |chunks| <= |fs|
    ensures forall j | 0 <= j < |chunks| :: chunks[j] == fs[i + j].sample && fs[i + j].recordingId == id
    ensures |chunks| == room || i + |chunks| == |fs| || fs[i + |chunks|].recordingId != id
    decreases room
  {
    if i < |fs| && fs[i].recordingId == id && room > 0 then
      [fs[i].sample] + ChunksFrom(fs, i + 1, id, room - 1)
    else []
  }

  /** `prepare_write`; `None` is `Abandon`. */
  function PrepareWrite(r: Rec, fs: seq<Frame>, written: nat): Option<seq<Bytes>> {
    var i := Skip(fs, BytePos(r.id, written));
    if i < |fs| && fs[i].recordingId == r.id then
      if written < fs[i].start then None
      else Some([fs[i].sample[written - fs[i].start..]] + ChunksFrom(fs, i + 1, r.id, MAX_CHUNKS - 1))
    else if written < r.bytes then None
    else Some([])
  }

  datatype Outcome = Aborted | Written(bytes: nat) | Synced
  datatype IoStep = Abort | Write(file: bool, chunks: seq<Bytes>) | Sync

  /** How one pass of `write_iter_prep`'s loop ends: a failed assertion or panic, `continue`, or a
      return. */
  datatype Pass = Panic | Again(s: Stream) | Idle(s: Stream) | Go(s: Stream, id: int, step: IoStep)

  /** The worker moves on to the recording after `id`. */
  function MoveOn(s: Stream, id: int): Stream {
    s.(ws := WriterState(id + 1, 0, false, true))
  }

  function MarkDeleted(recs: seq<Rec>, i: nat): seq<Rec>
    requires i < |recs|
  {
    recs[i := recs[i].(deleted := true)]
  }

  /** The part of a pass that deals with the last I/O outcome; `Idle(s)` means: go on with s. */
  function TakeOutcome(s: Stream, id: int, outcome: Outcome): Pass
    requires s.queue.lastGop <= |s.queue.frames|
  {
    var i := Partition(s.recs, s.ws.id);
    var found := i < |s.recs| && s.recs[i].id == id;
    if s.ws.id != id || s.ws.file then Panic
    else match outcome
      case Aborted =>
        var recs := if found then MarkDeleted(s.recs, i) else s.recs;
        var next := MoveOn(s.(recs := recs), id);
        Again(MaybePrune(next.(queue := PruneFront(next.queue, Pos(next.ws)))))
      case Written(n) =>
        var ws := s.ws.(written := s.ws.written + n, file := true);
        Idle(s.(ws := ws, queue := PruneFront(s.queue, Pos(ws))))
      case Synced =>
        if !found || s.ws.written != s.recs[i].bytes then Panic
        else
          var next := MoveOn(s, id);
          Again(next.(queue := PruneFront(next.queue, Pos(next.ws))))
  }

  /** The rest of a pass: what to do for the current or next recording. */
  function Examine(s: Stream): Pass {
    var i := Partition(s.recs, s.ws.id);
    if s.ws.file && (i == |s.recs| || s.recs[i].id != s.ws.id) then Go(s.(ws := s.ws.(file := false)), s.ws.id, Abort)
    else if i == |s.recs| then Idle(s)
    else
      var r := s.recs[i];
      if r.id != s.ws.id && s.ws.written != 0 then Panic
      else
        var t := s.(ws := s.ws.(id := r.id));
        match PrepareWrite(r, s.queue.frames, s.ws.written)
        case None =>
          if s.ws.file then Go(t.(ws := t.ws.(file := false)), r.id, Abort)
          else Again(MoveOn(t.(recs := MarkDeleted(t.recs, i)), r.id))
        case Some(chunks) =>
          if chunks != [] then Go(t.(ws := t.ws.(file := false)), r.id, Write(s.ws.file, chunks))
          else if r.growing then Idle(t)
          else if !s.ws.file then Panic
          else Go(t.(ws := t.ws.(file := false)), r.id, Sync)
  }

  function OnePass(s: Stream, last: Option<(int, Outcome)>): (p: Pass)
    requires s.queue.lastGop <= |s.queue.frames|
    ensures p.Again? ==> p.s.queue.lastGop <= |p.s.queue.frames|
    ensures p.Again? && last.None? ==> Later(s, p.s)
  {
    match last
    case None =>
      AbandonedMovesOn(s);
      Examine(s)
    case Some(l) =>
      match TakeOutcome(s, l.0, l.1)
      case Idle(t) =>
        AbandonedMovesOn(t);
        Examine(t)
      case done => done
  }

  /** `write_iter_prep`: passes until one returns. `Idle` is its `None`. */
  function Prep(s: Stream, last: Option<(int, Outcome)>): (p: Pass)
    requires s.queue.lastGop <= |s.queue.frames|
    ensures !p.Again?
    decreases if last.Some? then 1 else 0, |s.recs| - Partition(s.recs, s.ws.id)
  {
    hide OnePass;
    match OnePass(s, last)
    case Again(t) => Prep(t, None)
    case done => done
  }

  predicate Later(s: Stream, t: Stream) {
    && t.queue == s.queue && |t.recs| == |s.recs|
    && Partition(s.recs, s.ws.id) < Partition(t.recs, t.ws.id)
  }

  /** Each recording is abandoned at most once, so the loop ends. */
  lemma AbandonedMovesOn(s: Stream)
    ensures Examine(s).Again? ==> Later(s, Examine(s).s)
  {
    if Examine(s).Again? {
      var i, t := Partition(s.recs, s.ws.id), Examine(s).s;
      assert forall j | 0 <= j <= i :: t.recs[j].id < t.ws.id;
    }
  }
}
