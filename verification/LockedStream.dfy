/** The stream's methods as the source has them: fields updated in place, loops and all
    (server/db/stream/mod.rs, server/db/dir/writer.rs). Each is proved against `StreamState`. */
module LockedStream {
  import opened Base
  import opened StreamState
  import R = RecentFrames

  class LockedStream {
    var recs: seq<Rec>
    var pinned: bool
    const frames: R.RecentFrames
    var ws: WriterState
    var flushReady: int
    var committed: int
    var complete: int

    ghost predicate Valid()
      reads this, frames
    {
      frames.Valid()
    }

    /** The fields as a value. */
    ghost function View(): (s: Stream)
      reads this, frames
      ensures Valid() ==> s.queue.lastGop <= |s.queue.frames|
    {
      Stream(recs, pinned, R0(), ws, flushReady, committed, complete)
    }

    ghost function R0(): Queue
      reads this, frames
    {
      Queue(frames.frames, frames.lastGop)
    }

    /** A stream as `init_streams` makes it. */
    constructor (cumRecordings: int)
      ensures Valid() && fresh(frames)
      ensures View() == Stream([], false, Queue([], 0), WriterState(0, 0, false, false), cumRecordings, cumRecordings, cumRecordings)
    {
      frames := new R.RecentFrames();
      recs, pinned := [], false;
      ws := WriterState(0, 0, false, false);
      flushReady, committed, complete := cumRecordings, cumRecordings, cumRecordings;
    }

    /** `add_recording`. */
    method AddRecording(entry: int) returns (id: int)
      requires recs != [] ==> !recs[|recs| - 1].growing
      modifies this`recs
      ensures id == complete && recs == old(recs) + [Rec(id, true, false, true, 0, entry)]
    {
      id := complete;
      recs := recs + [Rec(id, true, false, true, 0, entry)];
    }

    /** `fs_bytes_to_add`. */
    method FsBytesToAdd() returns (sum: nat)
      requires forall i, j | 0 <= i < j < |recs| :: recs[i].id < recs[j].id
      ensures sum == ReadyBytes(recs, committed, flushReady)
    {
      hide ReadyBytes, Partition;
      sum := 0;
      var i := Partition(recs, committed);
      NoBytesBefore(recs, i, committed, flushReady);
      while i < |recs| && recs[i].id < flushReady
        invariant i <= |recs|
        invariant i < |recs| ==> recs[i].id >= committed
        invariant sum + ReadyBytes(recs[i..], committed, flushReady) == ReadyBytes(recs, committed, flushReady)
      {
        BytesNext(recs, i, committed, flushReady);
        sum := sum + RoundUp(recs[i].bytes);
        i := i + 1;
      }
      NoneReady(recs[i..], committed, flushReady);
    }

    /** `maybe_prune_recent_recordings`. */
    method MaybePruneRecentRecordings()
      requires Valid()
      modifies this`recs
      ensures View() == MaybePrune(old(View()))
    {
      if pinned {
        return;
      }
      ghost var all, q := recs, R0();
      ghost var k := 0;
      while recs != []
        invariant k <= |all| && recs == all[k..]
        invariant k + PopCount(recs, q, ws) == PopCount(all, q, ws)
        decreases |recs|
      {
        var front := recs[0];
        if |frames.frames| > 0 && front.id >= frames.frames[0].recordingId {
          return;
        }
        if front.id < ws.id {
          if !front.deleted && front.uncommitted {
            return;
          }
        } else if front.id == ws.id {
          if ws.written == front.bytes {
            return;
          }
        }
        assert recs[1..] == all[k + 1..];
        recs := recs[1..];
        k := k + 1;
      }
    }

    /** `delete_until`; its assertion is the caller's duty. */
    method DeleteUntil(end: int)
      requires Valid() && StreamState.DeleteUntil(recs, end).Some?
      modifies this`recs
      ensures Some(recs) == StreamState.DeleteUntil(old(recs), end)
    {
      var i := 0;
      ghost var before := recs;
      ghost var after := StreamState.DeleteUntil(recs, end).value;
      while i < |recs| && recs[i].id < end
        invariant i <= |recs| == |before| && i <= Partition(before, end)
        invariant forall j | 0 <= j < i :: recs[j] == after[j]
        invariant forall j | i <= j < |recs| :: recs[j] == before[j]
      {
        assert i < Partition(before, end);
        assert !recs[i].uncommitted;
        recs := recs[i := recs[i].(deleted := true)];
        i := i + 1;
      }
      assert i == Partition(before, end);
      assert recs == after;
    }

    /** `prepare_write`; `None` is `Abandon`. Its assertions on the frames hold. */
    method PrepareWrite(recording: Rec, written: nat) returns (result: Option<seq<Bytes>>)
      requires Valid()
      ensures result == StreamState.PrepareWrite(recording, frames.frames, written)
    {
      var pos := R.BytePos(recording.id, written);
      var i := frames.FromBytePos(pos);
      assert i == Skip(frames.frames, pos);
      if i < |frames.frames| && frames.frames[i].recordingId == recording.id {
        var f := frames.frames[i];
        if written < f.start {
          return None;
        }
        var first := f.sample[written - f.start..];
        assert first != [];
        var chunks := MoreChunks(frames.frames, i + 1, recording.id, first);
        return Some(chunks);
      } else if written < recording.bytes {
        return None;
      }
      return Some([]);
    }

    method PruneFrames()
      requires Valid()
      modifies frames
      ensures Valid() && View() == old(View()).(queue := PruneFront(old(View()).queue, Pos(ws)))
    {
      hide R.PruneCount, R.TotalBytes;
      frames.PruneFront(Pos(ws));
    }

    /** The part of a pass of `write_iter_prep` that deals with the last outcome; says whether to
        start over. */
    method TakeOutcome(id: int, outcome: Outcome) returns (again: bool)
      requires Valid() && !StreamState.TakeOutcome(View(), id, outcome).Panic?
      modifies this`recs, this`ws, frames
      ensures Valid()
      ensures StreamState.TakeOutcome(old(View()), id, outcome) == if again then Again(View()) else Pass.Idle(View())
    {
      hide PruneFront, R.Contiguous, R.TotalBytes, Partition, MaybePrune;
      var i := Partition(recs, ws.id);
      assert ws.id == id && !ws.file;
      var found := i < |recs| && recs[i].id == id;
      match outcome
      case Aborted =>
        if found {
          recs := recs[i := recs[i].(deleted := true)];
        }
        ws := WriterState(id + 1, 0, false, true);
        PruneFrames();
        MaybePruneRecentRecordings();
        return true;
      case Written(bytes) =>
        ws := ws.(written := ws.written + bytes, file := true);
        PruneFrames();
        return false;
      case Synced =>
        assert found && ws.written == recs[i].bytes;
        ws := WriterState(id + 1, 0, false, true);
        PruneFrames();
        return true;
    }

    /** The rest of a pass: whether to start over, and otherwise what to return. */
    method Examine() returns (again: bool, step: Option<(int, IoStep)>)
      requires Valid() && !StreamState.Examine(View()).Panic?
      modifies this`recs, this`ws
      ensures StreamState.Examine(old(View())) == if again then Again(View()) else Returned(View(), step)
    {
      hide Partition, StreamState.PrepareWrite;
      var i := Partition(recs, ws.id);
      if ws.file && (i == |recs| || recs[i].id != ws.id) {
        ws := ws.(file := false);
        return false, Some((ws.id, Abort));
      }
      if i == |recs| {
        return false, None;
      }
      var recording := recs[i];
      if recording.id != ws.id {
        assert ws.written == 0;
        ws := ws.(id := recording.id);
      }
      var chunks := PrepareWrite(recording, ws.written);
      if chunks.None? {
        if ws.file {
          ws := ws.(file := false);
          return false, Some((recording.id, Abort));
        }
        recs := recs[i := recording.(deleted := true)];
        ws := WriterState(recording.id + 1, 0, false, true);
        return true, None;
      }
      if chunks.value != [] {
        var file := ws.file;
        ws := ws.(file := false);
        return false, Some((recording.id, Write(file, chunks.value)));
      }
      if recording.growing {
        return false, None;
      }
      assert ws.file;
      ws := ws.(file := false);
      return false, Some((recording.id, Sync));
    }

    /** `write_iter_prep`. Where the specification does not panic no assertion fails, and the loop
        ends. */
    method WriteIterPrep(last: Option<(int, Outcome)>) returns (step: Option<(int, IoStep)>)
      requires Valid() && !Prep(View(), last).Panic?
      modifies this`recs, this`ws, frames
      ensures Valid() && Prep(old(View()), last) == Returned(View(), step)
    {
      hide StreamState.Examine, StreamState.TakeOutcome;
      var rest := last;
      while true
        invariant Valid() && Prep(View(), rest) == Prep(old(View()), last)
        decreases if rest.Some? then 1 else 0, |recs| - Partition(recs, ws.id)
      {
        ghost var before := View();
        if rest.Some? {
          var again := TakeOutcome(rest.value.0, rest.value.1);
          rest := None;
          if again {
            continue;
          }
        }
        AbandonedMovesOn(View());
        var again, next := Examine();
        if !again {
          return next;
        }
      }
    }

    /** What `flush` gathers from the stream; its assertion holds where the caller's invariant does. */
    method GatherReady() returns (news: seq<Rec>)
      requires forall i, j | 0 <= i < j < |recs| :: recs[i].id < recs[j].id
      requires forall i | 0 <= i < |recs| && committed <= recs[i].id < flushReady :: recs[i].uncommitted
      ensures news == Ready(recs, committed, flushReady)
    {
      news := Gathered(recs, committed, flushReady);
    }

    /** The marking loop after a commit. */
    method MarkCommitted(end: int)
      requires forall i, j | 0 <= i < j < |recs| :: recs[i].id < recs[j].id
      requires StreamState.MarkCommitted(recs, committed, end).Some?
      modifies this`recs
      ensures Some(recs) == StreamState.MarkCommitted(old(recs), committed, end)
    {
      hide StreamState.MarkCommitted;
      recs := Marked(recs, committed, end);
    }
  }

  /** The gathering loop itself. */
  method Gathered(recs: seq<Rec>, committed: int, flushReady: int) returns (news: seq<Rec>)
    requires forall i, j | 0 <= i < j < |recs| :: recs[i].id < recs[j].id
    requires forall i | 0 <= i < |recs| && committed <= recs[i].id < flushReady :: recs[i].uncommitted
    ensures news == Ready(recs, committed, flushReady)
  {
    hide Ready;
    news := [];
    var i := Partition(recs, committed);
    NoneBefore(recs, i, committed, flushReady);
    while i < |recs| && recs[i].id < flushReady
      invariant i <= |recs|
      invariant i < |recs| ==> recs[i].id >= committed
      invariant news + Ready(recs[i..], committed, flushReady) == Ready(recs, committed, flushReady)
    {
      assert recs[i].uncommitted;
      ReadyNext(recs, i, committed, flushReady);
      if !recs[i].deleted {
        news := news + [recs[i]];
      }
      i := i + 1;
    }
    RestUnready(recs[i..], committed, flushReady);
  }

  /** The loop itself. */
  method Marked(before: seq<Rec>, committed: int, end: int) returns (recs: seq<Rec>)
    requires forall i, j | 0 <= i < j < |before| :: before[i].id < before[j].id
    requires StreamState.MarkCommitted(before, committed, end).Some?
    ensures Some(recs) == StreamState.MarkCommitted(before, committed, end)
  {
    hide StreamState.MarkCommitted, Partition;
    recs := before;
    ghost var after := StreamState.MarkCommitted(before, committed, end).value;
    var i := Partition(recs, committed);
    FromOn(before, i, committed);
    while i < |recs| && recs[i].id < end
      invariant i <= |recs| == |before| && forall j | i <= j < |recs| :: recs[j].id >= committed
      invariant forall j | 0 <= j < i :: recs[j] == after[j]
      invariant forall j | i <= j < |recs| :: recs[j] == before[j]
    {
      if !recs[i].deleted {
        assert IsReady(before[i], committed, end);
        recs := recs[i := recs[i].(uncommitted := false)];
      }
      i := i + 1;
    }
    FromOn(before, i, end);
    assert recs == after;
  }

  lemma FromOn(recs: seq<Rec>, i: nat, id: int)
    requires forall i, j | 0 <= i < j < |recs| :: recs[i].id < recs[j].id
    requires i < |recs| ==> recs[i].id >= id
    ensures forall j | i <= j < |recs| :: recs[j].id >= id
  {
  }

  /** How `Prep` describes what `write_iter_prep` returned. */
  function Returned(s: Stream, step: Option<(int, IoStep)>): Pass {
    if step.None? then Pass.Idle(s) else Go(s, step.value.0, step.value.1)
  }

  lemma {:induction false} RestUnready(recs: seq<Rec>, committed: int, flushReady: int)
    requires forall i, j | 0 <= i < j < |recs| :: recs[i].id < recs[j].id
    requires recs != [] ==> recs[0].id >= flushReady
    ensures Ready(recs, committed, flushReady) == []
  {
    if recs != [] {
      RestUnready(recs[1..], committed, flushReady);
    }
  }

  lemma {:induction false} NoneBefore(recs: seq<Rec>, i: nat, committed: int, flushReady: int)
    requires i <= |recs| && forall j | 0 <= j < i :: recs[j].id < committed
    ensures Ready(recs[i..], committed, flushReady) == Ready(recs, committed, flushReady)
  {
    if i > 0 {
      NoneBefore(recs, i - 1, committed, flushReady);
      ReadyNext(recs, i - 1, committed, flushReady);
    } else {
      assert recs[0..] == recs;
    }
  }

  lemma ReadyNext(recs: seq<Rec>, i: nat, committed: int, flushReady: int)
    requires i < |recs|
    ensures Ready(recs[i..], committed, flushReady)
         == (if IsReady(recs[i], committed, flushReady) then [recs[i]] else []) + Ready(recs[i + 1..], committed, flushReady)
  {
    assert recs[i..][1..] == recs[i + 1..];
  }

  /** The loop of `prepare_write` after the first chunk. */
  method MoreChunks(fs: seq<R.Frame>, start: nat, id: int, first: Bytes) returns (chunks: seq<Bytes>)
    requires R.Contiguous(fs) && 0 < start <= |fs| && fs[start - 1].recordingId == id
    ensures chunks == [first] + ChunksFrom(fs, start, id, MAX_CHUNKS - 1)
  {
    hide R.TotalBytes;
    var i, writtenAfter := start, fs[start - 1].start + |fs[start - 1].sample|;
    chunks := [first];
    ghost var all := [first] + ChunksFrom(fs, start, id, MAX_CHUNKS - 1);
    while i < |fs| && fs[i].recordingId == id
      invariant 0 < i <= |fs| && |chunks| <= MAX_CHUNKS && fs[i - 1].recordingId == id
      invariant writtenAfter == fs[i - 1].start + |fs[i - 1].sample|
      invariant chunks + ChunksFrom(fs, i, id, MAX_CHUNKS - |chunks|) == all
    {
      assert R.FollowsAt(fs, i);
      assert writtenAfter == fs[i].start;
      if |chunks| == MAX_CHUNKS {
        return;
      }
      ChunkMoves(chunks, fs, i, id);
      chunks := chunks + [fs[i].sample];
      writtenAfter := writtenAfter + |fs[i].sample|;
      i := i + 1;
    }
  }

  lemma ChunkMoves(chunks: seq<Bytes>, fs: seq<R.Frame>, i: nat, id: int)
    requires i < |fs| && fs[i].recordingId == id && |chunks| < MAX_CHUNKS
    ensures chunks + ChunksFrom(fs, i, id, MAX_CHUNKS - |chunks|)
         == (chunks + [fs[i].sample]) + ChunksFrom(fs, i + 1, id, MAX_CHUNKS - (|chunks| + 1))
  {
    var rest := ChunksFrom(fs, i + 1, id, MAX_CHUNKS - |chunks| - 1);
    assert chunks + ([fs[i].sample] + rest) == (chunks + [fs[i].sample]) + rest;
  }

  /** The bytes on disk of the recordings that the next flush takes, deleted or not. */
  function ReadyBytes(recs: seq<Rec>, committed: int, flushReady: int): nat {
    if recs == [] then 0
    else (if committed <= recs[0].id < flushReady then RoundUp(recs[0].bytes) else 0) + ReadyBytes(recs[1..], committed, flushReady)
  }

  lemma BytesNext(recs: seq<Rec>, i: nat, committed: int, flushReady: int)
    requires i < |recs|
    ensures ReadyBytes(recs[i..], committed, flushReady)
         == (if committed <= recs[i].id < flushReady then RoundUp(recs[i].bytes) else 0) + ReadyBytes(recs[i + 1..], committed, flushReady)
  {
    assert recs[i..][1..] == recs[i + 1..];
  }

  lemma {:induction false} NoBytesBefore(recs: seq<Rec>, i: nat, committed: int, flushReady: int)
    requires i <= |recs| && forall j | 0 <= j < i :: recs[j].id < committed
    ensures ReadyBytes(recs[i..], committed, flushReady) == ReadyBytes(recs, committed, flushReady)
  {
    if i > 0 {
      NoBytesBefore(recs, i - 1, committed, flushReady);
      BytesNext(recs, i - 1, committed, flushReady);
    } else {
      assert recs[0..] == recs;
    }
  }

  lemma {:induction false} NoneReady(recs: seq<Rec>, committed: int, flushReady: int)
    requires forall i, j | 0 <= i < j < |recs| :: recs[i].id < recs[j].id
    requires recs != [] ==> recs[0].id >= flushReady
    ensures ReadyBytes(recs, committed, flushReady) == 0
  {
    if recs != [] {
      NoneReady(recs[1..], committed, flushReady);
    }
  }
}
