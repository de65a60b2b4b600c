/** The sample tables of one segment: stts, stsz and stss (server/src/mp4.rs:410-485;
    ISO/IEC 14496-12 sections 8.6.1, 8.7.3 and 8.6.2). */
module SampleTables {
  import opened Base
  import opened BigEndian
  import opened SampleIndex
  import opened Segments

  /** The frames of a segment as the tables need them. */
  ghost predicate Tabled(fs: seq<It>, first: nat) {
    && (forall k | 0 <= k < |fs| :: fs[k].duration < 0x8000_0000 && fs[k].bytes < 0x1_0000_0000)
    && first + |fs| < 0x1_0000_0000
  }

  /** How long frame k is shown: the last frame only until the end of the requested range. */
  function Shown(fs: seq<It>, end: int, k: nat): int
    requires k < |fs|
  {
    if k == |fs| - 1 then Min(end - fs[k].start, fs[k].duration) else fs[k].duration
  }

  /** One stts entry a frame: a count of 1 and the duration. */
  function Stts(fs: seq<It>, k: nat): (r: Bytes)
    requires k <= |fs| && Tabled(fs, 0)
    ensures |r| == 8 * k
  {
    if k == 0 then [] else Stts(fs, k - 1) + (U32(1) + U32(fs[k - 1].duration))
  }

  /** The stts entries with the last one cut to the requested end. */
  function SttsCut(fs: seq<It>, end: int): (r: Bytes)
    requires fs != [] && Tabled(fs, 0) && Shown(fs, end, |fs| - 1) >= 0
    ensures |r| == 8 * |fs|
  {
    Stts(fs, |fs| - 1) + (U32(1) + U32(Shown(fs, end, |fs| - 1)))
  }

  function Stsz(fs: seq<It>, k: nat): (r: Bytes)
    requires k <= |fs| && Tabled(fs, 0)
    ensures |r| == 4 * k
  {
    if k == 0 then [] else Stsz(fs, k - 1) + U32(fs[k - 1].bytes)
  }

  function Stss(fs: seq<It>, first: nat, k: nat): (r: Bytes)
    requires k <= |fs| && Tabled(fs, first)
    ensures |r| == 4 * KeysIn(fs, 0, k)
  {
    if k == 0 then [] else Stss(fs, first, k - 1) + if fs[k - 1].isKey then U32(first + k - 1) else []
  }

  function Zeros(n: nat): (r: Bytes)
    ensures |r| == n
  {
    seq(n, _ => 0)
  }

  /** Writing into the zeroed rest of a buffer. */
  lemma PutZeros(done: Bytes, n: nat, piece: Bytes)
    requires |piece| <= n
    ensures Put(done + Zeros(n), |done|, piece) == (done + piece) + Zeros(n - |piece|)
  {
  }

  /** The three buffers of `build_index` after k frames. */
  ghost predicate Built(fs: seq<It>, first: nat, k: nat, keys: nat, stts: Bytes, stsz: Bytes, stss: Bytes) {
    && k <= |fs| && Tabled(fs, first) && Tabled(fs, 0) && keys == KeysIn(fs, 0, k) <= KeysIn(fs, 0, |fs|)
    && stts == Stts(fs, k) + Zeros(8 * (|fs| - k))
    && stsz == Stsz(fs, k) + Zeros(4 * (|fs| - k))
    && stss == Stss(fs, first, k) + Zeros(4 * (KeysIn(fs, 0, |fs|) - keys))
  }

  lemma BuiltStep(fs: seq<It>, first: nat, k: nat, keys: nat, stts: Bytes, stsz: Bytes, stss: Bytes)
    requires k < |fs| && Built(fs, first, k, keys, stts, stsz, stss)
    ensures 8 * k + 8 <= |stts| && 4 * k + 4 <= |stsz| && (fs[k].isKey ==> 4 * keys + 4 <= |stss|)
    ensures var stts1 := Put(Put(stts, 8 * k, U32(1)), 8 * k + 4, U32(fs[k].duration));
            var stsz1 := Put(stsz, 4 * k, U32(fs[k].bytes));
            var stss1 := if fs[k].isKey then Put(stss, 4 * keys, U32(first + k)) else stss;
            Built(fs, first, k + 1, keys + (if fs[k].isKey then 1 else 0), stts1, stsz1, stss1)
  {
    hide U32;
    KeysGrow(fs, 0, k + 1, |fs|);
    var n := |fs| - k;
    PutZeros(Stts(fs, k), 8 * n, U32(1));
    PutZeros(Stts(fs, k) + U32(1), 8 * n - 4, U32(fs[k].duration));
    assert Stts(fs, k) + U32(1) + U32(fs[k].duration) == Stts(fs, k) + (U32(1) + U32(fs[k].duration));
    PutZeros(Stsz(fs, k), 4 * n, U32(fs[k].bytes));
    if fs[k].isKey {
      PutZeros(Stss(fs, first, k), 4 * (KeysIn(fs, 0, |fs|) - keys), U32(first + k));
    } else {
      assert Stss(fs, first, k) + [] == Stss(fs, first, k);
    }
  }

  /** `build_index` of a segment that `Segment::new` made: fills the three tables frame by frame, then
      cuts the last duration. */
  method BuildIndex(seg: Segment, data: Bytes, first: nat, end: int, ghost row: Row, ghost its: seq<It>, ghost b: nat, ghost e: nat)
    returns (r: Bytes)
    requires seg.begin.Some? ==> seg.begin.value.i <= |data|
    requires Indexed(row, data, its) && Holds(seg, its, b, e) && its[e - 1].start <= end
    requires first + seg.frames < 0x1_0000_0000
    ensures Tabled(its[b..e], first) && Tabled(its[b..e], 0) && Shown(its[b..e], end, e - b - 1) >= 0
    ensures r == SttsCut(its[b..e], end) + Stsz(its[b..e], e - b) + Stss(its[b..e], first, e - b)
  {
    var visited := Foreach(seg, data, row, its, b, e);
    var fs := visited.value;
    FramesTabled(row, data, its, seg, b, e, first);
    r := FillTables(fs, first, end, seg.frames, seg.keyFrames);
  }

  method FillTables(fs: seq<It>, first: nat, end: int, frames: nat, keyFrames: nat) returns (r: Bytes)
    requires fs != [] && fs[|fs| - 1].start <= end && Tabled(fs, first) && Tabled(fs, 0)
    requires Built(fs, first, 0, 0, Zeros(8 * frames), Zeros(4 * frames), Zeros(4 * keyFrames))
    ensures Shown(fs, end, |fs| - 1) >= 0
    ensures r == SttsCut(fs, end) + Stsz(fs, |fs|) + Stss(fs, first, |fs|)
  {
    hide Built, Stts, Stsz, Stss, KeysIn, U32, Put, Zeros, Shown, SttsCut;
    var stts, stsz, stss := Zeros(8 * frames), Zeros(4 * frames), Zeros(4 * keyFrames);
    var keys: nat := 0;
    for k := 0 to |fs|
      invariant Built(fs, first, k, keys, stts, stsz, stss)
    {
      BuiltStep(fs, first, k, keys, stts, stsz, stss);
      stts := Put(stts, 8 * k, U32(1));
      stts := Put(stts, 8 * k + 4, U32(fs[k].duration));
      stsz := Put(stsz, 4 * k, U32(fs[k].bytes));
      if fs[k].isKey {
        stss := Put(stss, 4 * keys, U32(first + k));
        keys := keys + 1;
      }
    }
    BuiltEnd(fs, first, keys, stts, stsz, stss, end);
    stts := Put(stts, 8 * |fs| - 4, U32(Shown(fs, end, |fs| - 1)));
    r := stts + stsz + stss;
  }

  lemma {:induction false} KeysShift(its: seq<It>, b: nat, e: nat, k: nat)
    requires b <= e <= |its| && k <= e - b
    ensures KeysIn(its[b..e], 0, k) == KeysIn(its, b, b + k)
  {
    if k > 0 {
      KeysShift(its, b, e, k - 1);
    }
  }

  lemma FramesTabled(row: Row, data: Bytes, its: seq<It>, seg: Segment, b: nat, e: nat, first: nat)
    requires Indexed(row, data, its) && Holds(seg, its, b, e) && first + seg.frames < 0x1_0000_0000
    ensures its[b..e] != [] && Tabled(its[b..e], first) && Tabled(its[b..e], 0)
    ensures Built(its[b..e], first, 0, 0, Zeros(8 * seg.frames), Zeros(4 * seg.frames), Zeros(4 * seg.keyFrames))
  {
    hide Walk, Advance, PastFrame, Start;
    FirstFrame(data, its);
    forall k | 0 <= k < |its| ensures its[k].duration < 0x8000_0000 && its[k].bytes < 0x1_0000_0000 {
      FrameSmall(data, its, k);
    }
    KeysShift(its, b, e, e - b);
    assert [] + Zeros(8 * seg.frames) == Zeros(8 * seg.frames) && [] + Zeros(4 * seg.frames) == Zeros(4 * seg.frames);
    assert [] + Zeros(4 * seg.keyFrames) == Zeros(4 * seg.keyFrames);
  }

  /** A duration and a size come out of the index bounded. */
  lemma FrameSmall(data: Bytes, its: seq<It>, k: nat)
    requires Linked(its, data) && k < |its| && Advance(Start(), data) == More(its[0])
    ensures its[k].duration < 0x8000_0000 && its[k].bytes < 0x1_0000_0000
  {
    if k == 0 {
      AdvanceSmall(Start(), data);
    } else {
      assert Link(its, data, k);
      AdvanceSmall(its[k - 1], data);
    }
  }

  lemma AdvanceSmall(it: It, data: Bytes)
    requires it.i <= |data|
    ensures Advance(it, data).More? ==> Advance(it, data).it.duration < 0x8000_0000 && Advance(it, data).it.bytes < 0x1_0000_0000
  {
    hide PastFrame;
  }

  lemma BuiltEnd(fs: seq<It>, first: nat, keys: nat, stts: Bytes, stsz: Bytes, stss: Bytes, end: int)
    requires fs != [] && Built(fs, first, |fs|, keys, stts, stsz, stss) && fs[|fs| - 1].start <= end
    ensures 0 <= Shown(fs, end, |fs| - 1) < 0x8000_0000 && |stts| == 8 * |fs|
    ensures Put(stts, 8 * |fs| - 4, U32(Shown(fs, end, |fs| - 1))) == SttsCut(fs, end)
    ensures stsz == Stsz(fs, |fs|) && stss == Stss(fs, first, |fs|)
  {
    hide U32;
    var n := |fs|;
    var front, last := Stts(fs, n - 1), U32(Shown(fs, end, n - 1));
    assert stts == front + (U32(1) + U32(fs[n - 1].duration)) + Zeros(0);
    assert stts[..8 * n - 4] == front + U32(1);
    assert Put(stts, 8 * n - 4, last) == front + U32(1) + last;
  }

  // -- what the tables say -----------------------------------------------------------------

  /** Durations of the frames, the last one cut. */
  ghost function SumShown(fs: seq<It>, end: int, k: nat): int
    requires k <= |fs|
  {
    if k == 0 then 0 else SumShown(fs, end, k - 1) + Shown(fs, end, k - 1)
  }

  /** Until its last frame a run of frames is shown as recorded. */
  lemma {:induction false} SumShownTime(its: seq<It>, data: Bytes, b: nat, e: nat, end: int, k: nat)
    requires Linked(its, data) && b < e <= |its| && k < e - b
    ensures SumShown(its[b..e], end, k) == its[b + k].start - its[b].start
  {
    if k > 0 {
      SumShownTime(its, data, b, e, end, k - 1);
      assert Link(its, data, b + k);
    }
  }

  /** The stts entries of a segment sum to its requested end minus its actual start. */
  lemma SttsSum(row: Row, data: Bytes, its: seq<It>, b: nat, e: nat, start: int, end: int, atKey: bool)
    requires Indexed(row, data, its) && 0 <= start <= end <= row.mediaDuration
    requires Selected(its, start, StopAt(row, end), atKey, b, e)
    ensures its[e - 1].start <= end
    ensures SumShown(its[b..e], end, e - b) == end - its[b].start
  {
    hide Walk, Advance, PastFrame, Start;
    FirstFrame(data, its);
    SumShownTime(its, data, b, e, end, e - b - 1);
    LastShown(row, data, its, b, e, start, end, atKey);
  }

  lemma LastShown(row: Row, data: Bytes, its: seq<It>, b: nat, e: nat, start: int, end: int, atKey: bool)
    requires Indexed(row, data, its) && Linked(its, data) && 0 <= start <= end <= row.mediaDuration
    requires Selected(its, start, StopAt(row, end), atKey, b, e)
    ensures its[e - 1].start <= end <= its[e - 1].start + its[e - 1].duration
  {
    hide Walk, Advance, PastFrame, Start;
    if e < |its| {
      assert Link(its, data, e);
      if end == row.mediaDuration {
        StartBelowEnd(its, data, e);
      }
    }
    if e - 1 > b && end == row.mediaDuration {
      StartBelowEnd(its, data, e - 1);
    }
  }

  lemma {:induction false} SttsAt(fs: seq<It>, k: nat, n: nat)
    requires k < n <= |fs| && Tabled(fs, 0)
    ensures At(Stts(fs, n), 8 * k, U32(1) + U32(fs[k].duration))
    decreases n
  {
    hide U32, At;
    var one := U32(1) + U32(fs[k].duration);
    if k < n - 1 {
      SttsAt(fs, k, n - 1);
      AtLonger(Stts(fs, n - 1), U32(1) + U32(fs[n - 1].duration), 8 * k, one);
    } else {
      AtEnd(Stts(fs, k), one);
    }
  }

  lemma {:induction false} StszAt(fs: seq<It>, k: nat, n: nat)
    requires k < n <= |fs| && Tabled(fs, 0)
    ensures At(Stsz(fs, n), 4 * k, U32(fs[k].bytes))
    decreases n
  {
    hide U32, At;
    if k < n - 1 {
      StszAt(fs, k, n - 1);
      AtLonger(Stsz(fs, n - 1), U32(fs[n - 1].bytes), 4 * k, U32(fs[k].bytes));
    } else {
      AtEnd(Stsz(fs, k), U32(fs[k].bytes));
    }
  }

  lemma {:induction false} StssAt(fs: seq<It>, first: nat, k: nat, n: nat)
    requires k < n <= |fs| && Tabled(fs, first) && fs[k].isKey
    ensures At(Stss(fs, first, n), 4 * KeysIn(fs, 0, k), U32(first + k))
    decreases n
  {
    hide U32, At, KeysIn;
    var more := if fs[n - 1].isKey then U32(first + n - 1) else [];
    assert Stss(fs, first, n) == Stss(fs, first, n - 1) + more;
    if k < n - 1 {
      StssAt(fs, first, k, n - 1);
      AtLonger(Stss(fs, first, n - 1), more, 4 * KeysIn(fs, 0, k), U32(first + k));
    } else {
      AtEnd(Stss(fs, first, k), U32(first + k));
    }
  }

  lemma SttsEntry(fs: seq<It>, end: int, k: nat)
    requires k < |fs| && Tabled(fs, 0) && Shown(fs, end, |fs| - 1) >= 0
    ensures 0 <= Shown(fs, end, k) < 0x1_0000_0000
    ensures At(SttsCut(fs, end), 8 * k, U32(1) + U32(Shown(fs, end, k)))
  {
    hide U32, At;
    var n := |fs| - 1;
    var last := U32(1) + U32(Shown(fs, end, n));
    if k < n {
      SttsAt(fs, k, n);
      AtLonger(Stts(fs, n), last, 8 * k, U32(1) + U32(fs[k].duration));
    } else {
      AtEnd(Stts(fs, n), last);
    }
  }

  /** Reading the tables gives each frame's duration, size and, for key frames, number. */
  lemma TablesRead(fs: seq<It>, first: nat, end: int, k: nat)
    requires k < |fs| && Tabled(fs, first) && Tabled(fs, 0) && Shown(fs, end, |fs| - 1) >= 0
    ensures Read32(SttsCut(fs, end), 8 * k) == 1 && Read32(SttsCut(fs, end), 8 * k + 4) == Shown(fs, end, k)
    ensures Read32(Stsz(fs, |fs|), 4 * k) == fs[k].bytes
    ensures fs[k].isKey ==>
              var i := 4 * KeysIn(fs, 0, k);
              i + 4 <= |Stss(fs, first, |fs|)| && Read32(Stss(fs, first, |fs|), i) == first + k
  {
    hide U32, Read32;
    SttsEntry(fs, end, k);
    var stts, n := SttsCut(fs, end), |fs|;
    AtSplit(stts, 8 * k, U32(1), U32(Shown(fs, end, k)));
    Back32(stts, 8 * k, 1);
    Back32(stts, 8 * k + 4, Shown(fs, end, k));
    StszAt(fs, k, n);
    Back32(Stsz(fs, n), 4 * k, fs[k].bytes);
    if fs[k].isKey {
      StssAt(fs, first, k, n);
      Back32(Stss(fs, first, n), 4 * KeysIn(fs, 0, k), first + k);
    }
  }
}
