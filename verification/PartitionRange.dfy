/** Serving a recording that is still partly in RAM: a prefix from the file, the rest from the recent
    frames (server/db/recording.rs). */
module PartitionRange {
  import opened Base
  import opened RecentFrames
  import opened StreamState
  import opened Pipe
  import opened PipeInv
  import opened PipeWorker

  lemma {:induction false} FlattenMore(chunks: seq<Bytes>, last: Bytes)
    ensures Flatten(chunks + [last]) == Flatten(chunks) + last
  {
    if chunks == [] {
      assert [last][1..] == [] && [] + [last] == [last];
    } else {
      assert (chunks + [last])[1..] == chunks[1..] + [last];
      FlattenMore(chunks[1..], last);
    }
  }

  lemma TrimEnd(chunks: seq<Bytes>, k: nat)
    requires chunks != [] && k <= |chunks[|chunks| - 1]|
    ensures var n := |chunks| - 1;
            k <= |Flatten(chunks)| && Flatten(chunks[n := chunks[n][..|chunks[n]| - k]]) == Flatten(chunks)[..|Flatten(chunks)| - k]
  {
    var n := |chunks| - 1;
    var before, last := chunks[..n], chunks[n];
    FlattenMore(before, last);
    FlattenMore(before, last[..|last| - k]);
    assert chunks == before + [last];
    assert chunks[n := last[..|last| - k]] == before + [last[..|last| - k]];
  }

  lemma TrimStart(chunks: seq<Bytes>, k: nat)
    requires chunks != [] && k <= |chunks[0]|
    ensures k <= |Flatten(chunks)| && Flatten(chunks[0 := chunks[0][k..]]) == Flatten(chunks)[k..]
  {
    assert chunks[0 := chunks[0][k..]][1..] == chunks[1..];
  }

  /** The frames `[from, to)` are the recording's data from the first one's start on. */
  ghost predicate Collected(fs: seq<Frame>, data: Bytes, id: int, from: nat, to: nat, chunks: seq<Bytes>) {
    && from <= to <= |fs| && |chunks| == to - from
    && (forall j | 0 <= j < |chunks| :: chunks[j] == fs[from + j].sample && fs[from + j].recordingId == id)
    && (from < to ==> At(data, fs[from].start, Flatten(chunks))
                      && fs[from].start + |Flatten(chunks)| == fs[to - 1].start + |fs[to - 1].sample|)
  }

  lemma CollectOne(fs: seq<Frame>, hist: map<int, Bytes>, id: int, from: nat, to: nat, chunks: seq<Bytes>)
    requires FramesMatch(fs, hist) && id in hist && to < |fs| && fs[to].recordingId == id
    requires Collected(fs, hist[id], id, from, to, chunks)
    ensures Collected(fs, hist[id], id, from, to + 1, chunks + [fs[to].sample])
  {
    FrameIs(fs, hist, to);
    FlattenMore(chunks, fs[to].sample);
    if from < to {
      assert FollowsAt(fs, to);
      assert chunks[to - 1 - from] == fs[to - 1].sample && fs[to - 1].recordingId == id;
      Joined(hist[id], fs[from].start, Flatten(chunks), fs[to].sample);
    } else {
      assert Flatten(chunks) + fs[to].sample == fs[to].sample;
    }
  }

  /** The frames from the first that ends after `lo` while they are of the recording and start before
      `hi`. */
  method Collect(fs: seq<Frame>, ghost hist: map<int, Bytes>, id: int, lo: nat, hi: nat)
    returns (from: nat, to: nat, chunks: seq<Bytes>)
    requires FramesMatch(fs, hist) && id in hist
    ensures Collected(fs, hist[id], id, from, to, chunks)
    ensures FirstAfter(fs, BytePos(id, lo), from)
    ensures to > from ==> fs[to - 1].start < hi
    ensures from <= to <= |fs| && (to == |fs| || fs[to].recordingId != id || fs[to].start >= hi)
  {
    hide FramesMatch, Collected, Flatten;
    from := Skip(fs, BytePos(id, lo));
    to, chunks := from, [];
    CollectNone(fs, hist[id], id, from);
    while to < |fs| && fs[to].recordingId == id && fs[to].start < hi
      invariant from <= to <= |fs| && Collected(fs, hist[id], id, from, to, chunks)
      invariant to > from ==> fs[to - 1].start < hi
    {
      CollectOne(fs, hist, id, from, to, chunks);
      chunks := chunks + [fs[to].sample];
      to := to + 1;
    }
  }

  /** Whatever part of `[lo, hi)` a frame in RAM holds is not in the range `[lo, to)` left to the file. */
  ghost predicate RamFirst(fs: seq<Frame>, id: int, lo: nat, hi: nat, to: nat) {
    forall i | 0 <= i < |fs| && fs[i].recordingId == id && lo < fs[i].start + |fs[i].sample| && fs[i].start < hi ::
      to <= Max(lo, fs[i].start)
  }

  /** `Segment::partition_range`, for a segment of a recording with the given data whose bytes in the
      file start at `base`: the byte range to read from the file and the chunks in RAM. Together they are
      the requested bytes, nothing that is in RAM is left to the file, and the panics are not reached. */
  method PartitionRange(fs: seq<Frame>, ghost hist: map<int, Bytes>, ghost data: Bytes, id: int, base: nat, start: nat, end: nat)
    returns (disk: (nat, nat), chunks: seq<Bytes>)
    requires FramesMatch(fs, hist) && (id in hist ==> data == hist[id]) && start <= end && base + end <= |data|
    ensures disk.0 == base + start && disk.0 <= disk.1 <= base + end
    ensures data[disk.0..disk.1] + Flatten(chunks) == data[base + start..base + end]
    ensures RamFirst(fs, id, base + start, base + end, disk.1)
  {
    ghost var known := hist[id := data];
    SameFrames(fs, hist, known);
    hide FramesMatch, Collected, Flatten, RamFirst;
    var lo, hi := base + start, base + end;
    var from, to, frames := Collect(fs, known, id, lo, hi);
    CollectedLength(fs, data, id, from, to, frames);
    if frames == [] {
      NothingInRam(data, lo, hi);
      NoFrame(fs, known, id, lo, hi, from, hi);
      return (lo, hi), [];
    }
    ReachesEnd(fs, known, id, from, to, frames, hi);
    CollectedIs(fs, data, id, from, to, frames);
    NoFrame(fs, known, id, lo, hi, from, Max(lo, fs[from].start));
    var skipAtEnd := fs[to - 1].start + |fs[to - 1].sample| - hi;
    var bytes;
    chunks, bytes := Trim(frames, fs[from].start, lo, hi, skipAtEnd, data);
    disk := (lo, hi - bytes);
  }

  lemma SameFrames(fs: seq<Frame>, hist: map<int, Bytes>, known: map<int, Bytes>)
    requires FramesMatch(fs, hist) && forall id | id in hist :: id in known && known[id] == hist[id]
    ensures FramesMatch(fs, known)
  {
    forall i | 0 <= i < |fs| ensures FrameOk(fs, known, i) {
      assert FrameOk(fs, hist, i);
    }
  }

  /** No frame before the first one that ends after `lo` holds anything requested. */
  lemma NoFrame(fs: seq<Frame>, hist: map<int, Bytes>, id: int, lo: nat, hi: nat, from: nat, to: nat)
    requires FramesMatch(fs, hist) && FirstAfter(fs, BytePos(id, lo), from)
    requires from < |fs| && fs[from].recordingId == id && fs[from].start < hi ==> to <= Max(lo, fs[from].start)
    ensures RamFirst(fs, id, lo, hi, to)
  {
    forall i | 0 <= i < |fs| && fs[i].recordingId == id && lo < fs[i].start + |fs[i].sample| && fs[i].start < hi
      ensures to <= Max(lo, fs[i].start)
    {
      if i > from {
        EndsIncrease(fs, from, i);
        if fs[from].recordingId == id {
          StartsAfter(fs, from, i);
        }
      }
    }
  }

  /** Cuts the last and then the first chunk to the requested range. */
  method Trim(frames: seq<Bytes>, first: nat, lo: nat, hi: nat, skipAtEnd: nat, ghost data: Bytes) returns (chunks: seq<Bytes>, bytes: nat)
    requires frames != [] && At(data, first, Flatten(frames)) && first + |Flatten(frames)| == hi + skipAtEnd
    requires skipAtEnd <= |frames[|frames| - 1]| && lo <= hi && lo < first + |frames[0]|
    ensures bytes == |Flatten(chunks)| && lo + bytes <= hi && hi - bytes == Max(lo, first) && data[lo..hi - bytes] + Flatten(chunks) == data[lo..hi]
  {
    hide Flatten;
    var last := |frames| - 1;
    TrimEnd(frames, skipAtEnd);
    chunks := frames[last := frames[last][..|frames[last]| - skipAtEnd]];
    bytes := hi - first;
    var skipAtStart := Max(0, lo - (hi - bytes));
    OneChunk(frames, chunks, skipAtEnd, first, hi);
    TrimStart(chunks, skipAtStart);
    chunks := chunks[0 := chunks[0][skipAtStart..]];
    bytes := bytes - skipAtStart;
    Assembled(data, first, Flatten(frames), skipAtEnd, skipAtStart, lo, hi);
  }

  lemma OneChunk(frames: seq<Bytes>, chunks: seq<Bytes>, skipAtEnd: nat, first: nat, hi: nat)
    requires frames != [] && first + |Flatten(frames)| == hi + skipAtEnd
    requires var last := |frames| - 1;
             skipAtEnd <= |frames[last]| && chunks == frames[last := frames[last][..|frames[last]| - skipAtEnd]]
    ensures hi >= first
    ensures if |frames| == 1 then first + |chunks[0]| == hi else chunks[0] == frames[0]
  {
    TrimEnd(frames, skipAtEnd);
    if |frames| == 1 {
      assert frames[1..] == [] && frames[0] + [] == frames[0];
    }
  }

  lemma CollectedLength(fs: seq<Frame>, data: Bytes, id: int, from: nat, to: nat, chunks: seq<Bytes>)
    requires Collected(fs, data, id, from, to, chunks)
    ensures |chunks| == to - from
  {
  }

  lemma NothingInRam(data: Bytes, lo: nat, hi: nat)
    requires lo <= hi <= |data|
    ensures data[lo..hi] + Flatten([]) == data[lo..hi]
  {
  }

  lemma CollectNone(fs: seq<Frame>, data: Bytes, id: int, from: nat)
    requires from <= |fs|
    ensures Collected(fs, data, id, from, from, [])
  {
  }

  lemma CollectedIs(fs: seq<Frame>, data: Bytes, id: int, from: nat, to: nat, chunks: seq<Bytes>)
    requires Collected(fs, data, id, from, to, chunks) && from < to
    ensures chunks[|chunks| - 1] == fs[to - 1].sample && chunks[0] == fs[from].sample && fs[from].recordingId == id
    ensures At(data, fs[from].start, Flatten(chunks))
    ensures fs[from].start + |Flatten(chunks)| == fs[to - 1].start + |fs[to - 1].sample|
  {
    assert chunks[|chunks| - 1] == fs[from + (|chunks| - 1)].sample;
  }

  /** The frames in RAM do not end before the requested range. */
  lemma ReachesEnd(fs: seq<Frame>, hist: map<int, Bytes>, id: int, from: nat, to: nat, chunks: seq<Bytes>, hi: nat)
    requires FramesMatch(fs, hist) && id in hist && hi <= |hist[id]| && from < to <= |fs|
    requires Collected(fs, hist[id], id, from, to, chunks)
    requires to == |fs| || fs[to].recordingId != id || fs[to].start >= hi
    ensures fs[to - 1].start + |fs[to - 1].sample| >= hi
  {
    assert FrameOk(fs, hist, to - 1);
    assert chunks[to - 1 - from] == fs[to - 1].sample && fs[to - 1].recordingId == id;
    if to < |fs| {
      assert FollowsAt(fs, to);
    }
  }

  lemma Assembled(data: Bytes, first: nat, all: Bytes, skipAtEnd: nat, skipAtStart: nat, lo: nat, hi: nat)
    requires At(data, first, all) && skipAtEnd <= |all| && first + |all| - skipAtEnd == hi && lo <= hi
    requires skipAtStart == Max(0, lo - first)
    ensures var rest := all[..|all| - skipAtEnd];
            && skipAtStart <= |rest|
            && lo <= hi - |rest[skipAtStart..]| && data[lo..hi - |rest[skipAtStart..]|] + rest[skipAtStart..] == data[lo..hi]
  {
    var rest := all[..|all| - skipAtEnd];
    assert rest == data[first..hi];
    assert rest[skipAtStart..] == data[first + skipAtStart..hi];
  }
}
