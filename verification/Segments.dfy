/** A view of part of one recording (server/db/recording.rs:189-471). */
module Segments {
  import opened Base
  import opened SampleIndex

  /** What the database row says of a recording. */
  datatype Row = Row(sampleFileBytes: nat, mediaDuration: nat, videoSamples: nat, videoSyncSamples: nat)

  /** `begin` is the iterator at the first frame, or `None` for the whole recording. */
  datatype Segment = Segment(begin: Option<It>, fileEnd: nat, frames: nat, keyFrames: nat)

  // -- frames of a valid index -------------------------------------------------------------

  /** How many of the frames `[b, e)` are key frames. */
  function KeysIn(its: seq<It>, b: nat, e: nat): nat
    requires b <= e <= |its|
  {
    if b == e then 0 else KeysIn(its, b, e - 1) + if its[e - 1].isKey then 1 else 0
  }

  lemma {:induction false} KeysBound(its: seq<It>, b: nat, e: nat)
    requires b <= e <= |its|
    ensures KeysIn(its, b, e) <= e - b
  {
    if b < e {
      KeysBound(its, b, e - 1);
    }
  }

  /** Where frame e starts in the file, or the file's end. */
  function EndPos(its: seq<It>, e: nat): nat
    requires e <= |its| && its != []
  {
    if e < |its| then its[e].pos else its[|its| - 1].pos + its[|its| - 1].bytes
  }

  function EndTime(its: seq<It>, e: nat): nat
    requires e <= |its| && its != []
  {
    if e < |its| then its[e].start else its[|its| - 1].start + its[|its| - 1].duration
  }

  function SizesIn(its: seq<It>, b: nat, e: nat): nat
    requires b <= e <= |its|
  {
    if b == e then 0 else SizesIn(its, b, e - 1) + its[e - 1].bytes
  }

  /** Consecutive frames: each starts where the one before ends. */
  ghost predicate Linked(its: seq<It>, data: Bytes) {
    && (forall k | 0 <= k < |its| :: its[k].i <= |data| && its[k].bytes > 0)
    && (forall k | 0 < k < |its| :: Link(its, data, k))
    && (its != [] ==> Advance(its[|its| - 1], data) == End(PastFrame(its[|its| - 1])))
  }

  ghost predicate Link(its: seq<It>, data: Bytes, k: nat)
    requires 0 < k < |its| && its[k - 1].i <= |data|
  {
    && Advance(its[k - 1], data) == More(its[k])
    && its[k].pos == its[k - 1].pos + its[k - 1].bytes && its[k].start == its[k - 1].start + its[k - 1].duration
    && its[k - 1].duration > 0
  }

  lemma AdvanceLinks(it: It, data: Bytes)
    requires it.i <= |data|
    ensures var r := Advance(it, data);
            r.More? ==> r.it.pos == it.pos + it.bytes && r.it.start == it.start + it.duration && r.it.bytes > 0
                        && (r.it.duration == 0 ==> r.it.i == |data|)
    ensures Advance(it, data).End? ==> Advance(it, data).it == PastFrame(it)
    ensures it.i == |data| ==> !Advance(it, data).More?
  {
  }

  lemma {:induction false} WalkLinked(it: It, data: Bytes)
    requires it.i <= |data| && Walk(it, data).Ok?
    ensures var its := Walk(it, data).value;
            && Linked(its, data)
            && (if its == [] then Advance(it, data) == End(PastFrame(it)) else Advance(it, data) == More(its[0]))
    decreases |data| - it.i
  {
    hide Advance, PastFrame;
    AdvanceLinks(it, data);
    if Advance(it, data).More? {
      var n := Advance(it, data).it;
      WalkLinked(n, data);
      AdvanceLinks(n, data);
      var rest := Walk(n, data).value;
      var its := [n] + rest;
      forall k | 0 < k < |its| ensures Link(its, data, k) {
        if k > 1 {
          assert Link(rest, data, k - 1);
        }
      }
    }
  }

  /** A recording's index: it iterates, starts with a key frame, and the row's totals are right. */
  ghost predicate Indexed(row: Row, data: Bytes, its: seq<It>) {
    && Walk(Start(), data) == Ok(its) && its != [] && its[0].isKey
    && row.videoSamples == |its| < 0x1_0000 && row.videoSyncSamples == KeysIn(its, 0, |its|)
    && row.sampleFileBytes == EndPos(its, |its|) && row.mediaDuration == EndTime(its, |its|) < 0x7FFF_FFFF
  }

  lemma FirstFrame(data: Bytes, its: seq<It>)
    requires Walk(Start(), data) == Ok(its) && its != []
    ensures Linked(its, data) && Advance(Start(), data) == More(its[0])
    ensures its[0].pos == 0 && its[0].start == 0
  {
    WalkLinked(Start(), data);
    AdvanceLinks(Start(), data);
  }

  lemma {:induction false} StartsGrow(its: seq<It>, data: Bytes, j: nat, k: nat)
    requires Linked(its, data) && j < k < |its|
    ensures its[j].start < its[k].start && its[j].pos < its[k].pos
  {
    assert Link(its, data, k);
    if j < k - 1 {
      StartsGrow(its, data, j, k - 1);
    }
  }

  lemma {:induction false} SizesPosition(its: seq<It>, data: Bytes, b: nat, e: nat)
    requires Linked(its, data) && b <= e <= |its| && its != []
    ensures SizesIn(its, b, e) == EndPos(its, e) - EndPos(its, b)
    decreases e
  {
    if b < e {
      SizesPosition(its, data, b, e - 1);
      if e < |its| {
        assert Link(its, data, e);
      }
    }
  }

  // -- which frames a segment selects ------------------------------------------------------

  ghost predicate Acceptable(its: seq<It>, k: nat, start: int, atKey: bool)
    requires k < |its|
  {
    its[k].start <= start && (!atKey || its[k].isKey)
  }

  /** The time to stop at: going to the end of the recording includes a trailing frame of zero
      duration. */
  function StopAt(row: Row, end: int): int {
    if end == row.mediaDuration then 0x7FFF_FFFF else end
  }

  /** From the last acceptable frame up to the first later frame at or after the stopping time. */
  ghost predicate Selected(its: seq<It>, start: int, stop: int, atKey: bool, b: nat, e: nat) {
    && b < e <= |its|
    && Acceptable(its, b, start, atKey) && (forall k | b < k < |its| :: !Acceptable(its, k, start, atKey))
    && (forall k | b < k < e :: its[k].start < stop) && (e < |its| ==> its[e].start >= stop)
  }

  /** The segment holds exactly the frames `[b, e)`. */
  ghost predicate Holds(seg: Segment, its: seq<It>, b: nat, e: nat) {
    && b < e <= |its|
    && (match seg.begin case None => b == 0 case Some(it) => it == its[b])
    && seg.frames == e - b && seg.keyFrames == KeysIn(its, b, e) && seg.fileEnd == EndPos(its, e)
  }

  /** `sample_file_range`. */
  function FileRange(seg: Segment): (nat, nat) {
    (if seg.begin.Some? then seg.begin.value.pos else 0, seg.fileEnd)
  }

  /** `actual_start_90k`. */
  function ActualStart(seg: Segment): nat {
    if seg.begin.Some? then seg.begin.value.start else 0
  }

  /** The byte range of a segment is the sizes of its frames, and it starts when they do. */
  lemma RangeHolds(seg: Segment, row: Row, data: Bytes, its: seq<It>, b: nat, e: nat)
    requires Indexed(row, data, its) && Holds(seg, its, b, e)
    ensures FileRange(seg).0 == its[b].pos && FileRange(seg).1 - FileRange(seg).0 == SizesIn(its, b, e)
    ensures ActualStart(seg) == its[b].start
  {
    hide Walk, Advance, PastFrame, Start;
    FirstFrame(data, its);
    SizesPosition(its, data, b, e);
  }

  /** Going to the recording's end selects all frames from the start on. */
  lemma SelectedToEnd(row: Row, data: Bytes, its: seq<It>, start: int, atKey: bool, b: nat, e: nat)
    requires Indexed(row, data, its) && Selected(its, start, StopAt(row, row.mediaDuration), atKey, b, e)
    ensures e == |its|
  {
    hide Walk, Advance, PastFrame, Start;
    if e < |its| {
      FirstFrame(data, its);
      StartBelowEnd(its, data, e);
      assert false;
    }
  }

  lemma StartBelowEnd(its: seq<It>, data: Bytes, k: nat)
    requires Linked(its, data) && k < |its|
    ensures its[k].start <= EndTime(its, |its|)
  {
    if k < |its| - 1 {
      StartsGrow(its, data, k, |its| - 1);
    }
  }

  lemma WholeSelected(row: Row, data: Bytes, its: seq<It>, atKey: bool)
    requires Indexed(row, data, its)
    ensures Selected(its, 0, StopAt(row, row.mediaDuration), atKey, 0, |its|)
  {
    hide Walk, Start, Advance, KeysIn;
    FirstFrame(data, its);
    forall k | 0 < k < |its|
      ensures !Acceptable(its, k, 0, atKey) && its[k].start < StopAt(row, row.mediaDuration)
    {
      StartsGrow(its, data, 0, k);
      StartBelowEnd(its, data, k);
    }
  }

  // -- Segment::new ------------------------------------------------------------------------

  /** The selection loop before frame k: `b` is the last acceptable frame before k, and none of the
      frames from there to k has stopped the loop. */
  ghost predicate Selecting(its: seq<It>, start: int, stop: int, atKey: bool, k: nat, b: int) {
    && k < |its|
    && (k > 0 ==> 0 <= b < k && Acceptable(its, b, start, atKey))
    && (forall j | 0 <= j < k && (k > 0 ==> b < j) :: !Acceptable(its, j, start, atKey))
    && (forall j | 0 <= j < k && b < j :: its[j].start < stop)
  }

  ghost predicate Counts(its: seq<It>, b: nat, k: nat, begin: It, frames: nat, keyFrames: nat) {
    && b <= k <= |its| && b < |its| && begin == its[b] && frames == k - b && keyFrames == KeysIn(its, b, k)
  }

  /** Nothing after a frame that stops the loop is acceptable. */
  lemma NothingLater(its: seq<It>, data: Bytes, start: int, atKey: bool, k: nat)
    requires Linked(its, data) && k < |its| && its[k].start >= start
    ensures forall j | k < j < |its| :: !Acceptable(its, j, start, atKey)
  {
    forall j | k < j < |its| ensures !Acceptable(its, j, start, atKey) {
      StartsGrow(its, data, k, j);
    }
  }

  /** `Segment::new`. Counters are 16 bits wide. */
  method NewSegment(row: Row, data: Bytes, start: int, end: int, atKey: bool, ghost its: seq<It>) returns (r: Result<Segment>)
    requires 0 <= start
    ensures start > end || end > row.mediaDuration ==> r == Err
    ensures Indexed(row, data, its) && start <= end <= row.mediaDuration ==>
              r.Ok? && exists b, e :: Selected(its, start, StopAt(row, end), atKey, b, e) && Holds(r.value, its, b, e)
  {
    if start > end || end > row.mediaDuration {
      return Err;
    }
    if start == 0 && end == row.mediaDuration {
      if Indexed(row, data, its) {
        WholeSelected(row, data, its, atKey);
        KeysBound(its, 0, |its|);
        var whole := Segment(None, row.sampleFileBytes, row.videoSamples % 0x1_0000, row.videoSyncSamples % 0x1_0000);
        assert Holds(whole, its, 0, |its|);
      }
      return Ok(Segment(None, row.sampleFileBytes, row.videoSamples % 0x1_0000, row.videoSyncSamples % 0x1_0000));
    }
    r := SlowSegment(row, data, start, end, atKey, its);
  }

  /** The loop of the slow path stands at frame k. */
  ghost predicate Standing(row: Row, data: Bytes, its: seq<It>, start: int, stop: int, atKey: bool,
                           k: nat, b: int, it: It, begin: It, frames: nat, keyFrames: nat) {
    && Indexed(row, data, its) && Linked(its, data) && k < |its| && it == its[k]
    && (k == 0 ==> Acceptable(its, 0, start, atKey))
    && Selecting(its, start, stop, atKey, k, b)
    && (k > 0 ==> Counts(its, b, k, begin, frames, keyFrames))
  }

  /** ... after checking whether frame k is a new candidate. */
  ghost predicate Judged(row: Row, data: Bytes, its: seq<It>, start: int, stop: int, atKey: bool,
                         k: nat, b: nat, it: It, begin: It, frames: nat, keyFrames: nat) {
    && Indexed(row, data, its) && Linked(its, data) && b <= k < |its| && it == its[k]
    && Acceptable(its, b, start, atKey)
    && (forall j | b < j <= k :: !Acceptable(its, j, start, atKey))
    && (forall j | b < j < k :: its[j].start < stop)
    && Counts(its, b, k, begin, frames, keyFrames)
  }

  lemma Judge(row: Row, data: Bytes, its: seq<It>, start: int, stop: int, atKey: bool,
              k: nat, b: int, it: It, begin: It, frames: nat, keyFrames: nat)
    requires Standing(row, data, its, start, stop, atKey, k, b, it, begin, frames, keyFrames)
    ensures if it.start <= start && (!atKey || it.isKey) then Judged(row, data, its, start, stop, atKey, k, k, it, it, 0, 0)
            else b >= 0 && Judged(row, data, its, start, stop, atKey, k, b, it, begin, frames, keyFrames)
  {
    hide Walk, Linked;
  }

  lemma Stopped(row: Row, data: Bytes, its: seq<It>, start: int, stop: int, atKey: bool,
                k: nat, b: nat, it: It, begin: It, frames: nat, keyFrames: nat)
    requires Judged(row, data, its, start, stop, atKey, k, b, it, begin, frames, keyFrames)
    requires start <= stop && it.start >= stop && frames > 0
    ensures Selected(its, start, stop, atKey, b, k) && Holds(Segment(Some(begin), it.pos, frames, keyFrames), its, b, k)
  {
    hide Walk;
    NothingLater(its, data, start, atKey, k);
  }

  lemma Moved(row: Row, data: Bytes, its: seq<It>, start: int, stop: int, atKey: bool,
              k: nat, b: nat, it: It, begin: It, frames: nat, keyFrames: nat)
    requires Judged(row, data, its, start, stop, atKey, k, b, it, begin, frames, keyFrames)
    requires it.start < stop || frames == 0
    ensures var frames1, keyFrames1 := (frames + 1) % 0x1_0000, (keyFrames + if it.isKey then 1 else 0) % 0x1_0000;
            match Advance(it, data)
            case Bad => false
            case More(n) => Standing(row, data, its, start, stop, atKey, k + 1, b, n, begin, frames1, keyFrames1)
            case End(last) =>
              && Selected(its, start, stop, atKey, b, |its|)
              && Holds(Segment(Some(begin), last.pos, frames1, keyFrames1), its, b, |its|)
  {
    hide Walk, Advance, Indexed, PastFrame;
    MovedCounts(row, data, its, b, k, begin, frames, keyFrames);
    if k + 1 < |its| {
      assert Link(its, data, k + 1);
    } else {
      AdvanceLinks(it, data);
      PastPos(it);
    }
  }

  lemma PastPos(it: It)
    ensures PastFrame(it).pos == it.pos + it.bytes
  {
  }

  lemma MovedCounts(row: Row, data: Bytes, its: seq<It>, b: nat, k: nat, begin: It, frames: nat, keyFrames: nat)
    requires Indexed(row, data, its) && k < |its| && Counts(its, b, k, begin, frames, keyFrames)
    ensures Counts(its, b, k + 1, begin, (frames + 1) % 0x1_0000, (keyFrames + if its[k].isKey then 1 else 0) % 0x1_0000)
  {
    hide Walk;
    KeysBound(its, b, k + 1);
  }

  lemma SlowStart(row: Row, data: Bytes, its: seq<It>, start: int, stop: int, atKey: bool, begin: It, frames: nat, keyFrames: nat)
    requires Indexed(row, data, its) && 0 <= start
    ensures Advance(Start(), data) == More(its[0]) && its[0].isKey
    ensures Standing(row, data, its, start, stop, atKey, 0, 0, its[0], begin, frames, keyFrames)
  {
    hide Walk, Advance, PastFrame, Start;
    FirstFrame(data, its);
  }

  /** The slow path: iterates through the index. */
  method SlowSegment(row: Row, data: Bytes, start: int, end: int, atKey: bool, ghost its: seq<It>) returns (r: Result<Segment>)
    requires 0 <= start <= end
    ensures Indexed(row, data, its) && end <= row.mediaDuration ==>
              r.Ok? && exists b, e :: Selected(its, start, StopAt(row, end), atKey, b, e) && Holds(r.value, its, b, e)
  {
    ghost var valid := Indexed(row, data, its) && end <= row.mediaDuration;
    var stop := StopAt(row, end);
    assert valid ==> start <= stop;
    if valid {
      SlowStart(row, data, its, start, stop, atKey, Start(), row.videoSamples % 0x1_0000, row.videoSyncSamples % 0x1_0000);
    }
    hide Indexed, Standing, Judged, Selected, Holds, Advance, StopAt, Walk;
    var ok, it := Next(Start(), data);
    if ok != Ok(true) || !it.isKey {
      return Err;
    }
    var begin, frames: nat, keyFrames: nat := Start(), row.videoSamples % 0x1_0000, row.videoSyncSamples % 0x1_0000;
    ghost var k, b := 0, 0;
    while true
      invariant it.i <= |data|
      invariant valid ==> Standing(row, data, its, start, stop, atKey, k, b, it, begin, frames, keyFrames)
      decreases |data| - it.i
    {
      if valid {
        Judge(row, data, its, start, stop, atKey, k, b, it, begin, frames, keyFrames);
      }
      if it.start <= start && (!atKey || it.isKey) {
        begin, frames, keyFrames := it, 0, 0;
        b := k;
      }
      if it.start >= stop && frames > 0 {
        if valid {
          Stopped(row, data, its, start, stop, atKey, k, b, it, begin, frames, keyFrames);
        }
        return Ok(Segment(Some(begin), it.pos, frames, keyFrames));
      }
      if valid {
        Moved(row, data, its, start, stop, atKey, k, b, it, begin, frames, keyFrames);
      }
      frames := (frames + 1) % 0x1_0000;
      keyFrames := (keyFrames + if it.isKey then 1 else 0) % 0x1_0000;
      var next: It;
      ok, next := Next(it, data);
      if ok.Err? {
        return Err;
      }
      if !ok.value {
        return Ok(Segment(Some(begin), next.pos, frames, keyFrames));
      }
      k, it := k + 1, next;
    }
  }

  // -- Segment::foreach --------------------------------------------------------------------

  /** `foreach`, returning the iterators it calls its function with. */
  method Foreach(seg: Segment, data: Bytes, ghost row: Row, ghost its: seq<It>, ghost b: nat, ghost e: nat) returns (r: Result<seq<It>>)
    requires seg.begin.Some? ==> seg.begin.value.i <= |data|
    ensures Indexed(row, data, its) && Holds(seg, its, b, e) ==> r == Ok(its[b..e])
  {
    ghost var valid := Indexed(row, data, its) && Holds(seg, its, b, e);
    if valid {
      VisitStart(row, data, its, seg, b, e);
    }
    hide Indexed, Linked, Holds, Advance, Visiting, Start, Walk;
    var it := Start();
    if seg.begin.Some? {
      it := seg.begin.value;
    } else {
      var ok, first := Next(it, data);
      if ok != Ok(true) || !first.isKey {
        return Err;
      }
      it := first;
    }
    var haveFrame, keyFrame, visited := true, 0, [];
    for i := 0 to seg.frames
      invariant haveFrame ==> it.i <= |data|
      invariant valid ==> Visiting(row, data, its, seg, b, e, i, haveFrame, it, keyFrame, visited)
    {
      if valid {
        VisitStep(row, data, its, seg, b, e, i, haveFrame, it, keyFrame, visited);
      }
      if !haveFrame {
        return Err;
      }
      if it.isKey {
        keyFrame := keyFrame + 1;
        if keyFrame > seg.keyFrames {
          return Err;
        }
      }
      visited := visited + [it];
      var ok, next := Next(it, data);
      if ok.Err? {
        return Err;
      }
      haveFrame, it := ok.value, next;
    }
    if valid {
      VisitEnd(row, data, its, seg, b, e, haveFrame, it, keyFrame, visited);
    }
    if keyFrame < seg.keyFrames {
      return Err;
    }
    return Ok(visited);
  }

  /** The loop of `foreach` has visited i frames. */
  ghost predicate Visiting(row: Row, data: Bytes, its: seq<It>, seg: Segment, b: nat, e: nat,
                           i: nat, haveFrame: bool, it: It, keyFrame: nat, visited: seq<It>) {
    && Indexed(row, data, its) && Linked(its, data) && Holds(seg, its, b, e) && i <= seg.frames
    && visited == its[b..b + i] && keyFrame == KeysIn(its, b, b + i)
    && haveFrame == (b + i < |its|) && (haveFrame ==> it == its[b + i])
  }

  lemma VisitStart(row: Row, data: Bytes, its: seq<It>, seg: Segment, b: nat, e: nat)
    requires Indexed(row, data, its) && Holds(seg, its, b, e)
    ensures Advance(Start(), data) == More(its[0]) && its[0].isKey
    ensures Visiting(row, data, its, seg, b, e, 0, true, if seg.begin.Some? then seg.begin.value else its[0], 0, [])
  {
    hide Walk, Advance, PastFrame, Start;
    FirstFrame(data, its);
  }

  lemma {:induction false} KeysGrow(its: seq<It>, b: nat, m: nat, e: nat)
    requires b <= m <= e <= |its|
    ensures KeysIn(its, b, m) <= KeysIn(its, b, e)
  {
    if m < e {
      KeysGrow(its, b, m, e - 1);
    }
  }

  lemma VisitStep(row: Row, data: Bytes, its: seq<It>, seg: Segment, b: nat, e: nat,
                  i: nat, haveFrame: bool, it: It, keyFrame: nat, visited: seq<It>)
    requires Visiting(row, data, its, seg, b, e, i, haveFrame, it, keyFrame, visited) && i < seg.frames
    ensures haveFrame && (it.isKey ==> keyFrame + 1 <= seg.keyFrames)
    ensures var keyFrame1, visited1 := keyFrame + (if it.isKey then 1 else 0), visited + [it];
            match Advance(it, data)
            case Bad => false
            case More(n) => Visiting(row, data, its, seg, b, e, i + 1, true, n, keyFrame1, visited1)
            case End(last) => Visiting(row, data, its, seg, b, e, i + 1, false, last, keyFrame1, visited1)
  {
    hide Walk, Indexed, Advance, PastFrame;
    KeysGrow(its, b, b + i + 1, e);
    assert its[b..b + i] + [its[b + i]] == its[b..b + i + 1];
    AdvanceLinks(it, data);
    if b + i + 1 < |its| {
      assert Link(its, data, b + i + 1);
    }
  }

  lemma VisitEnd(row: Row, data: Bytes, its: seq<It>, seg: Segment, b: nat, e: nat,
                 haveFrame: bool, it: It, keyFrame: nat, visited: seq<It>)
    requires Visiting(row, data, its, seg, b, e, seg.frames, haveFrame, it, keyFrame, visited)
    ensures visited == its[b..e] && keyFrame == seg.keyFrames
  {
  }
}
