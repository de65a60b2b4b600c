/** Each step of the recording pipeline keeps the invariant and fails no assertion of the source. */
module PipeSteps {
  import opened Base
  import opened RecentFrames
  import opened StreamState
  import opened Pipe
  import opened PipeInv

  // -- the stream writer -----------------------------------------------------------------------

  lemma WakeSafe(p: Pipe, sent: bool)
    requires Inv(p)
    ensures Inv(Wake(p, sent)) && (sent ==> Wake(p, sent).job != Off)
  {
    hide FramesOk, DbOk, Matches, NewsOk, OpenFile;
    var q := Wake(p, sent);
    forall i | 0 <= i < |q.stream.recs| ensures RecOk(q, i) {
      assert RecOk(p, i);
    }
  }

  /** `id` is the open recording's, or the next one's. */
  ghost predicate Extends(hist: map<int, Bytes>, after: map<int, Bytes>, id: int, sample: Bytes) {
    after == hist[id := (if id in hist then hist[id] else []) + sample]
  }

  lemma FramesPushed(q: Queue, hist: map<int, Bytes>, after: map<int, Bytes>, first: int, top: int, f: Frame)
    requires FramesOk(q, hist, first, top) && f.sample != []
    requires Extends(hist, after, f.recordingId, f.sample)
    requires f.start == if f.recordingId in hist then |hist[f.recordingId]| else 0
    requires f.recordingId == top - 1 > first - 1 || (f.recordingId == top && first <= top && top !in hist)
    ensures q.frames != [] ==> Follows(q.frames[|q.frames| - 1], f)
    ensures FramesOk(Pushed(q, f), after, first, f.recordingId + 1)
  {
    var fs, all := q.frames, q.frames + [f];
    if fs != [] {
      assert FrameOk(fs, hist, |fs| - 1);
    }
    Append(fs, f);
    forall i | 0 <= i < |all| ensures FrameOk(all, after, i) {
      if i < |fs| {
        assert FrameOk(fs, hist, i);
        if i + 1 < |fs| {
          assert FollowsAt(fs, i + 1);
          LastIsNewest(fs, i + 1);
        }
        assert At(after[fs[i].recordingId], fs[i].start, fs[i].sample);
      }
    }
  }

  lemma LastIsNewest(fs: seq<Frame>, i: nat)
    requires Contiguous(fs) && i < |fs|
    ensures fs[i].recordingId <= fs[|fs| - 1].recordingId
  {
    if i < |fs| - 1 {
      EndsIncrease(fs, i, |fs| - 1);
    }
  }

  /** The worker's file keeps matching when the open recording grows. */
  lemma JobGrows(job: Job, ws: WriterState, hist: map<int, Bytes>, after: map<int, Bytes>, files: map<int, File>,
                 dbCum: int, first: int, complete: int, id: int, sample: Bytes)
    requires JobOk(job, ws, hist, files, dbCum, first, complete)
    requires Extends(hist, after, id, sample) && complete <= id
    ensures JobOk(job, ws, after, files, dbCum, first, complete)
  {
    if ws.id in hist {
      assert forall n | 0 <= n <= |hist[ws.id]| :: hist[ws.id][..n] == after[ws.id][..n];
      if job.Doing? && job.step.Write? {
        var data := Flatten(job.step.chunks);
        assert after[ws.id][ws.written..ws.written + |data|] == hist[ws.id][ws.written..ws.written + |data|];
      }
    }
  }

  /** The state in the middle of `push`, before anything is pruned. */
  function Appended(p: Pipe, sample: Bytes, isKey: bool, entry: int): Pipe {
    var s := p.stream;
    var id := if p.writer.Some? then p.writer.value else s.complete;
    var recs := if p.writer.Some? then s.recs else s.recs + [Rec(id, true, false, true, 0, entry)];
    if recs == [] then p
    else
      var last := |recs| - 1;
      p.(writer := Some(id), hist := p.hist[id := Data(p, id) + sample],
         stream := s.(recs := recs[last := recs[last].(bytes := recs[last].bytes + |sample|)],
                      queue := Pushed(s.queue, Frame(id, recs[last].bytes, sample, isKey))))
  }

  lemma LastRec(p: Pipe)
    requires Inv(p) && p.stream.recs != []
    ensures RecOk(p, |p.stream.recs| - 1)
  {
  }

  lemma AppendedRecs(p: Pipe, sample: Bytes, isKey: bool, entry: int)
    requires Inv(p) && sample != []
    ensures RecsOk(Appended(p, sample, isKey, entry))
  {
    hide FramesOk, JobOk, DbOk, FlushOk;
    var q := Appended(p, sample, isKey, entry);
    if p.writer.Some? {
      LastRec(p);
    }
    forall i | 0 <= i < |q.stream.recs| ensures RecOk(q, i) {
      if i < |p.stream.recs| {
        assert RecOk(p, i);
      }
    }
  }

  lemma AppendedFlush(p: Pipe, sample: Bytes, isKey: bool, entry: int)
    requires Inv(p) && sample != []
    ensures FlushOk(Appended(p, sample, isKey, entry))
  {
    hide FramesOk, JobOk, DbOk, Matches, NewsOk;
    var q := Appended(p, sample, isKey, entry);
    if !p.flush.NoFlush? {
      var end := if p.flush.Gathered? then p.stream.flushReady else p.dbCum;
      if p.writer.Some? {
        LastRec(p);
      }
      ReadyChanged(p.flush.news, p.stream.recs, q.stream.recs, |q.stream.recs| - 1, p.stream.committed, end);
    }
  }

  lemma AppendedSafe(p: Pipe, sample: Bytes, isKey: bool, entry: int)
    requires Inv(p) && sample != []
    ensures Inv(Appended(p, sample, isKey, entry))
    ensures var f := Frame(if p.writer.Some? then p.writer.value else p.stream.complete,
                           |Data(p, if p.writer.Some? then p.writer.value else p.stream.complete)|, sample, isKey);
            p.stream.queue.frames != [] ==> Follows(p.stream.queue.frames[|p.stream.queue.frames| - 1], f)
  {
    hide FramesOk, JobOk, DbOk, FlushOk, Matches;
    AppendedRecs(p, sample, isKey, entry);
    AppendedFlush(p, sample, isKey, entry);
    var q := Appended(p, sample, isKey, entry);
    var id := if p.writer.Some? then p.writer.value else p.stream.complete;
    if p.writer.Some? {
      LastRec(p);
    }
    FramesPushed(p.stream.queue, p.hist, q.hist, First(p), Top(p), Frame(id, |Data(p, id)|, sample, isKey));
    JobGrows(p.job, p.stream.ws, p.hist, q.hist, p.files, p.dbCum, First(p), p.stream.complete, id, sample);
    PushedFits(p.stream.queue, Frame(id, |Data(p, id)|, sample, isKey));
  }

  lemma PushedFits(q: Queue, f: Frame)
    requires q.lastGop <= |q.frames|
    ensures Pushed(q, f).lastGop <= |Pushed(q, f).frames|
  {
  }

  lemma PushSafe(p: Pipe, sample: Bytes, isKey: bool, entry: int)
    requires Inv(p) && sample != []
    ensures PushFrame(p, sample, isKey, entry).Some? && Inv(PushFrame(p, sample, isKey, entry).value)
  {
    hide FramesOk, JobOk, DbOk, FlushOk, PruneFront, MaybePrune;
    AppendedSafe(p, sample, isKey, entry);
    if p.stream.recs != [] {
      LastRec(p);
    }
    var q := Appended(p, sample, isKey, entry);
    PruneFrontSafe(q, Pos(p.stream.ws));
    MaybePruneSafe(q.(stream := q.stream.(queue := PruneFront(q.stream.queue, Pos(p.stream.ws)))));
  }

  /** A push appends the sample to its recording's data, as the newest frame and to the newest recording:
      the open one, or else a new one with the given sample entry. */
  lemma PushAppends(p: Pipe, sample: Bytes, isKey: bool, entry: int)
    requires Inv(p) && sample != [] && PushFrame(p, sample, isKey, entry).Some?
    ensures var q, id := PushFrame(p, sample, isKey, entry).value, if p.writer.Some? then p.writer.value else p.stream.complete;
            var fs, rs := q.stream.queue.frames, q.stream.recs;
            && q.writer == Some(id) && q.hist == p.hist[id := Data(p, id) + sample]
            && fs != [] && fs[|fs| - 1] == Frame(id, |Data(p, id)|, sample, isKey)
            && rs != [] && rs[|rs| - 1].id == id && rs[|rs| - 1].bytes == |Data(p, id)| + |sample|
            && (p.writer.None? ==> rs[|rs| - 1].entry == entry)
            && (p.writer.Some? ==> p.stream.recs != [] && rs[|rs| - 1].entry == p.stream.recs[|p.stream.recs| - 1].entry)
  {
    hide FramesOk, JobOk, DbOk, FlushOk, RecOk, PruneFront, MaybePrune;
    AppendedSafe(p, sample, isKey, entry);
    if p.stream.recs != [] {
      LastIsThere(p);
    }
    var a := Appended(p, sample, isKey, entry);
    PruneFrontSafe(a, Pos(p.stream.ws));
    NewestFrame(a, Pos(p.stream.ws));
    NewestRec(a.(stream := a.stream.(queue := PruneFront(a.stream.queue, Pos(p.stream.ws)))));
  }

  lemma LastIsThere(p: Pipe)
    requires Inv(p) && p.stream.recs != []
    ensures var r := p.stream.recs[|p.stream.recs| - 1];
            r.id == Top(p) - 1 && r.id in p.hist && r.bytes == |p.hist[r.id]| && (r.growing <==> p.writer.Some?)
  {
    hide FramesOk, JobOk, DbOk, FlushOk;
    LastRec(p);
  }

  lemma NewestFrame(p: Pipe, pos: BytePos)
    requires Inv(p) && p.stream.queue.frames != []
    ensures var fs := PruneFront(p.stream.queue, pos).frames;
            fs != [] && fs[|fs| - 1] == p.stream.queue.frames[|p.stream.queue.frames| - 1]
  {
    hide RecsOk, JobOk, DbOk, FlushOk, PruneFront;
    var _ := PruneFrontKeeps(p.stream.queue, pos);
  }

  lemma NewestRec(p: Pipe)
    requires Inv(p) && p.stream.recs != []
    ensures var s := MaybePrune(p.stream);
            s.recs != [] && s.recs[|s.recs| - 1] == p.stream.recs[|p.stream.recs| - 1] && s.queue == p.stream.queue
  {
    hide Inv, PopCount;
    PopsOld(p, PopCount(p.stream.recs, p.stream.queue, p.stream.ws));
  }

  lemma CloseKeepsRecs(p: Pipe)
    requires Inv(p) && p.writer.Some?
    ensures CloseRec(p).Some? && RecsOk(CloseRec(p).value)
  {
    hide FramesOk, DbOk, FlushOk, JobOk;
    LastRec(p);
    var q := CloseRec(p).value;
    forall i | 0 <= i < |q.stream.recs| ensures RecOk(q, i) {
      assert RecOk(p, i);
    }
  }

  lemma CloseKeepsFlush(p: Pipe)
    requires Inv(p) && p.writer.Some? && CloseRec(p).Some?
    ensures FlushOk(CloseRec(p).value)
  {
    hide FramesOk, DbOk, JobOk, Matches, NewsOk;
    LastRec(p);
    var q, last := CloseRec(p).value, |p.stream.recs| - 1;
    if !p.flush.NoFlush? {
      var end := if p.flush.Gathered? then p.stream.flushReady else p.dbCum;
      ReadyChanged(p.flush.news, p.stream.recs, q.stream.recs, last, p.stream.committed, end);
    }
  }

  lemma CloseSafe(p: Pipe)
    requires Inv(p) && p.writer.Some?
    ensures CloseRec(p).Some? && Inv(CloseRec(p).value)
  {
    hide FramesOk, DbOk, FlushOk, RecOk;
    CloseKeepsRecs(p);
    CloseKeepsFlush(p);
  }
}
