/** The frames a stream keeps in RAM (server/db/stream/recent_frames.rs). */
module RecentFrames {
  import opened Base

  /** 64 MiB. */
  const BYTES_FOR_WRITER: nat := 64 * 1024 * 1024

  /** A place in a stream's sample data. */
  datatype BytePos = BytePos(recordingId: int, bytePos: nat)

  predicate Less(a: BytePos, b: BytePos) {
    a.recordingId < b.recordingId || (a.recordingId == b.recordingId && a.bytePos < b.bytePos)
  }

  datatype Frame = Frame(recordingId: int, start: nat, sample: Bytes, isKey: bool)

  function EndOf(f: Frame): BytePos {
    BytePos(f.recordingId, f.start + |f.sample|)
  }

  /** A frame continues the recording of the one before or starts the next recording; no sample is
      empty. */
  predicate Follows(f: Frame, g: Frame) {
    || (g.recordingId == f.recordingId && g.start == f.start + |f.sample|)
    || (g.recordingId == f.recordingId + 1 && g.start == 0)
  }

  ghost predicate Contiguous(fs: seq<Frame>) {
    && (forall i | 0 <= i < |fs| :: fs[i].sample != [])
    && (forall i | 0 < i < |fs| :: FollowsAt(fs, i))
  }

  ghost predicate FollowsAt(fs: seq<Frame>, i: nat)
    requires 0 < i < |fs|
  {
    Follows(fs[i - 1], fs[i])
  }

  function TotalBytes(fs: seq<Frame>): nat {
    if fs == [] then 0 else |fs[0].sample| + TotalBytes(fs[1..])
  }

  lemma {:induction false} TotalMore(fs: seq<Frame>, f: Frame)
    ensures TotalBytes(fs + [f]) == TotalBytes(fs) + |f.sample|
  {
    if fs != [] {
      TotalMore(fs[1..], f);
      assert (fs + [f])[1..] == fs[1..] + [f];
    }
  }

  /** Frame i need not stay for the worker: it is all before `pos`, or it is not within the last
      67,108,864 bytes. */
  predicate Expendable(fs: seq<Frame>, i: nat, pos: BytePos)
    requires i < |fs|
  {
    !Less(pos, EndOf(fs[i])) || TotalBytes(fs[i..]) > 67_108_864
  }

  /** Dropping the first k frames drops only what no one needs, and all of it: what stays is in the
      newest group of pictures or starts with a frame the worker may need. */
  ghost predicate PrunedTo(fs: seq<Frame>, newest: nat, pos: BytePos, k: nat) {
    && k <= newest <= |fs|
    && (forall i | 0 <= i < k :: Expendable(fs, i, pos))
    && (k < newest ==> !Expendable(fs, k, pos))
  }

  /** The newest key frame, or the first frame if there is none after it. */
  ghost predicate NewestGroup(fs: seq<Frame>, newest: nat) {
    && (newest > 0 ==> newest < |fs| && fs[newest].isKey)
    && forall i | newest < i < |fs| :: !fs[i].isKey
  }

  /** How many frames `prune_front` drops: at most `limit`, and none from the first frame that is
      within the byte limit and not fully written. */
  function PruneCount(fs: seq<Frame>, limit: nat, pos: BytePos): (k: nat)
    requires limit <= |fs|
    ensures k <= limit
    decreases limit
  {
    if limit == 0 || (TotalBytes(fs) <= BYTES_FOR_WRITER && Less(pos, EndOf(fs[0]))) then 0
    else 1 + PruneCount(fs[1..], limit - 1, pos)
  }

  lemma {:induction false} PruneCountIs(fs: seq<Frame>, limit: nat, pos: BytePos)
    requires limit <= |fs|
    ensures PrunedTo(fs, limit, pos, PruneCount(fs, limit, pos))
    decreases limit
  {
    assert fs[0..] == fs;
    if limit > 0 && Expendable(fs, 0, pos) {
      PruneCountIs(fs[1..], limit - 1, pos);
      forall i | 1 <= i < |fs| ensures Expendable(fs, i, pos) <==> Expendable(fs[1..], i - 1, pos) {
        assert fs[1..][i - 1..] == fs[i..];
      }
    }
  }

  /** Ends of contiguous frames strictly increase. */
  lemma {:induction false} EndsIncrease(fs: seq<Frame>, i: nat, j: nat)
    requires Contiguous(fs) && i < j < |fs|
    ensures Less(EndOf(fs[i]), EndOf(fs[j]))
    ensures fs[i].recordingId <= fs[j].recordingId
  {
    assert FollowsAt(fs, j) && fs[j].sample != [];
    if i < j - 1 {
      EndsIncrease(fs, i, j - 1);
    }
  }

  /** What `partition_point` over ends finds: the first frame that ends after `pos`. */
  ghost predicate FirstAfter(fs: seq<Frame>, pos: BytePos, i: nat) {
    && i <= |fs|
    && (forall j | 0 <= j < i :: !Less(pos, EndOf(fs[j])))
    && (i < |fs| ==> Less(pos, EndOf(fs[i])))
  }

  class RecentFrames {
    var frames: seq<Frame>
    /** Counts the frames dropped so far. */
    var discarded: nat
    /** The index of the newest key frame. */
    var lastGop: nat
    var totalBytes: nat

    ghost predicate Valid()
      reads this
    {
      && Contiguous(frames) && totalBytes == TotalBytes(frames)
      && (if frames == [] then lastGop == 0 else lastGop < |frames|)
      && NewestGroup(frames, lastGop)
    }

    constructor ()
      ensures Valid() && frames == [] && discarded == 0
    {
      frames, discarded, lastGop, totalBytes := [], 0, 0, 0;
    }

    /** `push_back`. */
    method PushBack(f: Frame)
      requires Valid() && f.sample != [] && (frames != [] ==> Follows(frames[|frames| - 1], f))
      modifies this
      ensures Valid() && frames == old(frames) + [f] && discarded == old(discarded)
      ensures lastGop == if f.isKey then |old(frames)| else old(lastGop)
    {
      TotalMore(frames, f);
      Append(frames, f);
      if f.isKey {
        lastGop := |frames|;
      }
      totalBytes := totalBytes + |f.sample|;
      frames := frames + [f];
    }

    /** `prune_front`: drops a prefix but never the newest group of pictures, so never the newest
        frame. */
    method PruneFront(pos: BytePos)
      requires Valid()
      modifies this
      ensures Valid()
      ensures var k := PruneCount(old(frames), old(lastGop), pos);
              k <= |old(frames)| && frames == old(frames)[k..] && discarded == old(discarded) + k && lastGop == old(lastGop) - k
      ensures PrunedTo(old(frames), old(lastGop), pos, discarded - old(discarded))
      ensures old(frames) != [] ==> frames != [] && frames[|frames| - 1] == old(frames)[|old(frames)| - 1]
    {
      hide PrunedTo, PruneCount, TotalBytes;
      var k, total := CountPruned(frames, lastGop, totalBytes, pos);
      Dropped(frames, k);
      PruneCountIs(frames, lastGop, pos);
      totalBytes := total;
      frames := frames[k..];
      lastGop := lastGop - k;
      discarded := discarded + k;
    }

    /** `iter_from_byte_pos`: where iteration starts. */
    method FromBytePos(pos: BytePos) returns (i: nat)
      requires Valid()
      ensures FirstAfter(frames, pos, i)
    {
      var lo, hi := 0, |frames|;
      while lo < hi
        invariant 0 <= lo <= hi <= |frames|
        invariant forall j | 0 <= j < lo :: !Less(pos, EndOf(frames[j]))
        invariant hi < |frames| ==> Less(pos, EndOf(frames[hi]))
      {
        var mid := (lo + hi) / 2;
        if Less(pos, EndOf(frames[mid])) {
          hi := mid;
        } else {
          forall j | 0 <= j < mid ensures !Less(pos, EndOf(frames[j])) {
            EndsIncrease(frames, j, mid);
          }
          lo := mid + 1;
        }
      }
      return lo;
    }
  }

  /** The loop of `prune_front`: how many frames go, and the bytes that stay. */
  method CountPruned(frames: seq<Frame>, lastGop: nat, totalBytes: nat, pos: BytePos) returns (k: nat, total: nat)
    requires lastGop <= |frames| && totalBytes == TotalBytes(frames)
    ensures k == PruneCount(frames, lastGop, pos) && total == TotalBytes(frames[k..])
  {
    k, total := 0, totalBytes;
    assert frames[0..] == frames;
    while k < lastGop && !(total <= BYTES_FOR_WRITER && Less(pos, EndOf(frames[k])))
      invariant 0 <= k <= lastGop && total == TotalBytes(frames[k..])
      invariant k + PruneCount(frames[k..], lastGop - k, pos) == PruneCount(frames, lastGop, pos)
    {
      assert frames[k..][0] == frames[k] && frames[k..][1..] == frames[k + 1..];
      total := total - |frames[k].sample|;
      k := k + 1;
    }
    assert k < lastGop ==> frames[k..][0] == frames[k];
  }

  lemma Append(fs: seq<Frame>, f: Frame)
    requires Contiguous(fs) && f.sample != [] && (fs != [] ==> Follows(fs[|fs| - 1], f))
    ensures Contiguous(fs + [f])
  {
    var all := fs + [f];
    forall i | 0 < i < |all| ensures FollowsAt(all, i) {
      assert i < |fs| ==> FollowsAt(fs, i);
    }
  }

  lemma Dropped(fs: seq<Frame>, k: nat)
    requires Contiguous(fs) && k <= |fs|
    ensures Contiguous(fs[k..])
  {
    forall i | 0 < i < |fs[k..]| ensures FollowsAt(fs[k..], i) {
      assert FollowsAt(fs, k + i);
    }
  }
}
