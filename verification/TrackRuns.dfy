/** The trun boxes of one segment (server/src/mp4.rs:487-626; ISO/IEC 14496-12 section 8.8.8): one run
    for each key frame and the frames that follow it. */
module TrackRuns {
  import opened Base
  import opened BigEndian
  import opened BoxTree
  import opened SampleIndex
  import opened Segments
  import opened SampleTables

  datatype Sample = Sample(duration: nat, size: nat)

  /** `offset` is where the run's first sample starts; only a key frame's run has first-sample
      flags. */
  datatype Run = Run(key: bool, offset: nat, samples: seq<Sample>)

  const TRUN: Kind := [0x74, 0x72, 0x75, 0x6e]

  /** Version 0 and the flags: data-offset, sample-duration and sample-size present, and
      first-sample-flags for a key frame. */
  function RunFlags(key: bool): (r: Bytes)
    ensures |r| == 4
  {
    [0, 0, 3, if key then 5 else 1]
  }

  /** first_sample_flags: 2 << 26 | 2 << 24 | 1 << 22 | 2 << 20. */
  const FIRST_FLAGS := 0x8000000 + 0x2000000 + 0x400000 + 0x200000

  // -- which runs --------------------------------------------------------------------------

  function SampleOf(f: It): Sample {
    Sample(f.duration, f.bytes)
  }

  /** The runs of the first k frames, whose bytes start at `pos`. */
  function RunsOf(fs: seq<It>, k: nat, pos: nat): (rs: seq<Run>)
    requires k <= |fs|
    ensures k > 0 ==> rs != []
  {
    if k == 0 then []
    else
      var rs, f := RunsOf(fs, k - 1, pos), fs[k - 1];
      if f.isKey || rs == [] then rs + [Run(f.isKey, pos + SizesIn(fs, 0, k - 1), [SampleOf(f)])]
      else
        var last := rs[|rs| - 1];
        rs[..|rs| - 1] + [last.(samples := last.samples + [SampleOf(f)])]
  }

  /** The last sample shown for another duration. */
  function CutRun(r: Run, duration: nat): Run
    requires r.samples != []
  {
    var n := |r.samples| - 1;
    r.(samples := r.samples[..n] + [r.samples[n].(duration := duration)])
  }

  // -- where the samples are ---------------------------------------------------------------

  datatype Place = Place(pos: nat, size: nat, duration: nat)

  ghost function SampleSizes(r: Run, k: nat): nat
    requires k <= |r.samples|
  {
    if k == 0 then 0 else SampleSizes(r, k - 1) + r.samples[k - 1].size
  }

  /** Where a reader finds the first k samples of a run: one after another from the run's offset. */
  ghost function RunPlaces(r: Run, k: nat): seq<Place>
    requires k <= |r.samples|
  {
    if k == 0 then []
    else
      var s := r.samples[k - 1];
      RunPlaces(r, k - 1) + [Place(r.offset + SampleSizes(r, k - 1), s.size, s.duration)]
  }

  ghost function Places(rs: seq<Run>): seq<Place> {
    if rs == [] then [] else Places(rs[..|rs| - 1]) + RunPlaces(rs[|rs| - 1], |rs[|rs| - 1].samples|)
  }

  /** Where the frames truly are. */
  ghost function FramePlaces(fs: seq<It>, k: nat, pos: nat): seq<Place>
    requires k <= |fs|
  {
    if k == 0 then []
    else FramePlaces(fs, k - 1, pos) + [Place(pos + SizesIn(fs, 0, k - 1), fs[k - 1].bytes, fs[k - 1].duration)]
  }

  lemma {:induction false} RunMore(r: Run, s: Sample, k: nat)
    requires k <= |r.samples|
    ensures SampleSizes(r.(samples := r.samples + [s]), k) == SampleSizes(r, k)
    ensures RunPlaces(r.(samples := r.samples + [s]), k) == RunPlaces(r, k)
  {
    if k > 0 {
      RunMore(r, s, k - 1);
    }
  }

  /** The open run ends where the next frame's bytes start. */
  ghost predicate EndsAt(rs: seq<Run>, pos: nat) {
    rs != [] ==> var r := rs[|rs| - 1]; r.offset + SampleSizes(r, |r.samples|) == pos
  }

  lemma PlacesLast(rs: seq<Run>, r: Run)
    ensures Places(rs + [r]) == Places(rs) + RunPlaces(r, |r.samples|)
  {
    assert (rs + [r])[..|rs|] == rs;
  }

  lemma PlacesNewRun(rs: seq<Run>, key: bool, pos: nat, s: Sample)
    ensures Places(rs + [Run(key, pos, [s])]) == Places(rs) + [Place(pos, s.size, s.duration)]
    ensures EndsAt(rs + [Run(key, pos, [s])], pos + s.size)
  {
    var r := Run(key, pos, [s]);
    PlacesLast(rs, r);
    assert RunPlaces(r, 0) == [] && RunPlaces(r, 1) == [Place(pos, s.size, s.duration)];
    assert SampleSizes(r, 1) == s.size;
  }

  lemma PlacesSameRun(rs: seq<Run>, s: Sample, pos: nat)
    requires rs != [] && EndsAt(rs, pos)
    ensures var last := rs[|rs| - 1];
            var rs1 := rs[..|rs| - 1] + [last.(samples := last.samples + [s])];
            Places(rs1) == Places(rs) + [Place(pos, s.size, s.duration)] && EndsAt(rs1, pos + s.size)
  {
    var front, last := rs[..|rs| - 1], rs[|rs| - 1];
    var r1, n := last.(samples := last.samples + [s]), |last.samples|;
    RunMore(last, s, n);
    PlacesLast(front, r1);
    PlacesLast(front, last);
    assert front + [last] == rs;
    assert Places(front) + (RunPlaces(last, n) + [Place(pos, s.size, s.duration)]) == Places(front) + RunPlaces(last, n) + [Place(pos, s.size, s.duration)];
  }

  lemma PlacesFrame(rs: seq<Run>, f: It, at: nat)
    requires EndsAt(rs, at)
    ensures rs == [] || f.isKey ==> var rs1 := rs + [Run(f.isKey, at, [SampleOf(f)])];
            Places(rs1) == Places(rs) + [Place(at, f.bytes, f.duration)] && EndsAt(rs1, at + f.bytes)
    ensures rs != [] && !f.isKey ==> var last := rs[|rs| - 1];
            var rs1 := rs[..|rs| - 1] + [last.(samples := last.samples + [SampleOf(f)])];
            Places(rs1) == Places(rs) + [Place(at, f.bytes, f.duration)] && EndsAt(rs1, at + f.bytes)
  {
    hide Places, EndsAt;
    if rs == [] || f.isKey {
      PlacesNewRun(rs, f.isKey, at, SampleOf(f));
    } else {
      PlacesSameRun(rs, SampleOf(f), at);
    }
  }

  /** Every sample a reader locates through the runs' data offsets is where its bytes truly are. */
  lemma {:induction false} RunsPlaces(fs: seq<It>, k: nat, pos: nat)
    requires k <= |fs|
    ensures Places(RunsOf(fs, k, pos)) == FramePlaces(fs, k, pos)
    ensures EndsAt(RunsOf(fs, k, pos), pos + SizesIn(fs, 0, k))
  {
    hide Places, EndsAt, RunPlaces, SampleSizes;
    if k == 0 {
      NoPlaces(pos);
    } else {
      RunsPlaces(fs, k - 1, pos);
      PlacesFrame(RunsOf(fs, k - 1, pos), fs[k - 1], pos + SizesIn(fs, 0, k - 1));
    }
  }

  lemma NoPlaces(pos: nat)
    ensures Places([]) == [] && EndsAt([], pos)
  {
  }

  // -- bytes -------------------------------------------------------------------------------

  /** Runs whose counts and lengths fit 32 bits, with 31-bit durations. */
  ghost predicate RunFits(r: Run) {
    && 24 + 8 * |r.samples| < 0x1_0000_0000
    && forall k | 0 <= k < |r.samples| :: r.samples[k].duration < 0x8000_0000 && r.samples[k].size < 0x1_0000_0000
  }

  ghost predicate RunsFit(rs: seq<Run>) {
    forall i | 0 <= i < |rs| :: RunFits(rs[i])
  }

  function SampleBytes(samples: seq<Sample>, k: nat): (r: Bytes)
    requires k <= |samples|
    requires forall j | 0 <= j < |samples| :: samples[j].duration < 0x8000_0000 && samples[j].size < 0x1_0000_0000
    ensures |r| == 8 * k
  {
    if k == 0 then [] else SampleBytes(samples, k - 1) + (U32(samples[k - 1].duration) + U32(samples[k - 1].size))
  }

  /** What follows the count: the 32-bit data offset, a key frame's flags, the samples. */
  function RunTail(r: Run): (b: Bytes)
    requires RunFits(r)
    ensures |b| == 4 + (if r.key then 4 else 0) + 8 * |r.samples|
  {
    U32(r.offset % 0x1_0000_0000) + (if r.key then U32(FIRST_FLAGS) else []) + SampleBytes(r.samples, |r.samples|)
  }

  /** A run with given length and count fields. */
  function RunWith(len: nat, count: nat, r: Run): (b: Bytes)
    requires RunFits(r) && len < 0x1_0000_0000 && count < 0x1_0000_0000
    ensures |b| == RunSize(r)
  {
    U32(len) + (TRUN + RunFlags(r.key)) + U32(count) + RunTail(r)
  }

  function RunSize(r: Run): nat {
    20 + (if r.key then 4 else 0) + 8 * |r.samples|
  }

  function RunBytes(r: Run): (b: Bytes)
    requires RunFits(r)
    ensures |b| == RunSize(r)
  {
    RunWith(RunSize(r), |r.samples|, r)
  }

  function AllRuns(rs: seq<Run>): Bytes
    requires RunsFit(rs)
  {
    if rs == [] then [] else AllRuns(rs[..|rs| - 1]) + RunBytes(rs[|rs| - 1])
  }

  lemma AllRunsLast(rs: seq<Run>, r: Run)
    requires RunsFit(rs + [r])
    ensures RunsFit(rs) && RunFits(r) && AllRuns(rs + [r]) == AllRuns(rs) + RunBytes(r)
  {
    assert (rs + [r])[..|rs|] == rs && (rs + [r])[|rs|] == r;
    forall i | 0 <= i < |rs| ensures RunFits(rs[i]) {
      assert (rs + [r])[i] == rs[i];
    }
  }

  /** The buffer while the last run is open: its length and count are still zero. */
  ghost predicate Written(rs: seq<Run>, v: Bytes, boxPos: nat) {
    && RunsFit(rs)
    && if rs == [] then v == []
       else
         var front, last := rs[..|rs| - 1], rs[|rs| - 1];
         RunsFit(front) && RunFits(last) && boxPos == |AllRuns(front)| && v == AllRuns(front) + RunWith(0, 0, last)
  }

  lemma Patched(front: Bytes, a: Bytes, b: Bytes, c: Bytes, d: Bytes, a1: Bytes, c1: Bytes)
    requires |a| == |a1| && |c| == |c1|
    ensures var v := front + (a + b + c + d);
            |front| + |a| + |b| + |c| <= |v|
            && Put(Put(v, |front|, a1), |front| + |a| + |b|, c1) == front + (a1 + b + c1 + d)
  {
    var v := front + (a + b + c + d);
    var v1 := Put(v, |front|, a1);
    assert v1 == front + (a1 + b + c + d);
  }

  /** Finishing a run writes its length and count into their places. */
  lemma Finished(rs: seq<Run>, v: Bytes, boxPos: nat)
    requires rs != [] && Written(rs, v, boxPos)
    ensures var last := rs[|rs| - 1];
            && boxPos + 16 <= |v| && |v| - boxPos == RunSize(last) < 0x1_0000_0000 && |last.samples| < 0x1_0000_0000
            && Put(Put(v, boxPos, U32(|v| - boxPos)), boxPos + 12, U32(|last.samples|)) == AllRuns(rs)
  {
    hide Put, RunWith, RunBytes, RunSize, U32;
    var front, last := rs[..|rs| - 1], rs[|rs| - 1];
    SizeFits(last);
    RunCompleted(AllRuns(front), last);
  }

  lemma SizeFits(r: Run)
    requires RunFits(r)
    ensures |r.samples| <= RunSize(r) < 0x1_0000_0000 && 16 <= RunSize(r)
  {
  }

  lemma RunCompleted(front: Bytes, r: Run)
    requires RunFits(r) && RunSize(r) < 0x1_0000_0000 && |r.samples| < 0x1_0000_0000
    ensures var v := front + RunWith(0, 0, r);
            |front| + 16 <= |v| && Put(Put(v, |front|, U32(RunSize(r))), |front| + 12, U32(|r.samples|)) == front + RunBytes(r)
  {
    hide U32, RunTail, RunFlags, Put;
    Patched(front, U32(0), TRUN + RunFlags(r.key), U32(0), RunTail(r), U32(RunSize(r)), U32(|r.samples|));
  }

  lemma {:induction false} SampleBytesMore(a: seq<Sample>, b: seq<Sample>, k: nat)
    requires k <= |a| && k <= |b| && a[..k] == b[..k]
    requires forall j | 0 <= j < |a| :: a[j].duration < 0x8000_0000 && a[j].size < 0x1_0000_0000
    requires forall j | 0 <= j < |b| :: b[j].duration < 0x8000_0000 && b[j].size < 0x1_0000_0000
    ensures SampleBytes(a, k) == SampleBytes(b, k)
  {
    hide U32;
    if k > 0 {
      assert a[..k - 1] == a[..k][..k - 1] && b[..k - 1] == b[..k][..k - 1];
      assert a[..k][k - 1] == b[..k][k - 1];
      SampleBytesMore(a, b, k - 1);
    }
  }

  /** One more sample is eight more bytes. */
  lemma RunWithMore(len: nat, count: nat, r: Run, s: Sample)
    requires RunFits(r) && RunFits(r.(samples := r.samples + [s])) && len < 0x1_0000_0000 && count < 0x1_0000_0000
    ensures s.duration < 0x8000_0000 && s.size < 0x1_0000_0000
    ensures RunWith(len, count, r.(samples := r.samples + [s])) == RunWith(len, count, r) + (U32(s.duration) + U32(s.size))
  {
    hide U32;
    var more := r.samples + [s];
    assert more[|r.samples|] == s && more[..|r.samples|] == r.samples;
    SampleBytesMore(r.samples, more, |r.samples|);
  }

  // -- writing the runs --------------------------------------------------------------------

  ghost predicate RunSmall(r: Run, k: nat) {
    0 < |r.samples| <= k && RunFits(r)
  }

  ghost predicate AllSmall(rs: seq<Run>, k: nat) {
    forall i | 0 <= i < |rs| :: RunSmall(rs[i], k)
  }

  lemma SmallMore(rs: seq<Run>, k: nat, r: Run)
    requires AllSmall(rs, k) && RunSmall(r, k + 1)
    ensures AllSmall(rs + [r], k + 1) && (rs != [] ==> AllSmall(rs[..|rs| - 1] + [r], k + 1))
  {
    forall i | 0 <= i < |rs| ensures RunSmall(rs[i], k + 1) {
      assert RunSmall(rs[i], k);
    }
  }

  lemma {:induction false} RunsSmall(fs: seq<It>, k: nat, pos: nat)
    requires k <= |fs| < 0x1_0000 && Tabled(fs, 0)
    ensures AllSmall(RunsOf(fs, k, pos), k) && RunsFit(RunsOf(fs, k, pos))
  {
    hide AllSmall, SizesIn;
    if k == 0 {
      SmallNone();
    } else {
      RunsSmall(fs, k - 1, pos);
      var rs, f := RunsOf(fs, k - 1, pos), fs[k - 1];
      if f.isKey || rs == [] {
        SmallMore(rs, k - 1, Run(f.isKey, pos + SizesIn(fs, 0, k - 1), [SampleOf(f)]));
      } else {
        var last := rs[|rs| - 1];
        SmallAt(rs, k - 1, |rs| - 1);
        SmallMore(rs, k - 1, last.(samples := last.samples + [SampleOf(f)]));
      }
    }
    SmallFit(RunsOf(fs, k, pos), k);
  }

  lemma SmallNone()
    ensures AllSmall([], 0)
  {
  }

  lemma SmallAt(rs: seq<Run>, k: nat, i: nat)
    requires AllSmall(rs, k) && i < |rs|
    ensures RunSmall(rs[i], k)
  {
  }

  lemma SmallFit(rs: seq<Run>, k: nat)
    requires AllSmall(rs, k)
    ensures RunsFit(rs)
  {
    forall i | 0 <= i < |rs| ensures RunFits(rs[i]) {
      assert RunSmall(rs[i], k);
    }
  }

  lemma FrontFits(rs: seq<Run>)
    requires rs != [] && RunsFit(rs)
    ensures RunsFit(rs[..|rs| - 1]) && RunFits(rs[|rs| - 1])
  {
  }

  /** The fixed part of a new run. */
  function RunHeader(key: bool, offset: nat): Bytes {
    U32(0) + (TRUN + RunFlags(key)) + U32(0) + U32(offset % 0x1_0000_0000) + if key then U32(FIRST_FLAGS) else []
  }

  lemma HeaderEmpty(key: bool, offset: nat)
    ensures RunFits(Run(key, offset, [])) && RunHeader(key, offset) == RunWith(0, 0, Run(key, offset, []))
  {
    hide U32;
  }

  /** Starting a run after finished ones. */
  lemma StartRun(rs: seq<Run>, v: Bytes, key: bool, offset: nat, s: Sample)
    requires RunsFit(rs) && v == AllRuns(rs) && s.duration < 0x8000_0000 && s.size < 0x1_0000_0000
    ensures Written(rs + [Run(key, offset, [s])], v + RunHeader(key, offset) + (U32(s.duration) + U32(s.size)), |v|)
  {
    hide U32, AllRuns, RunHeader, RunWith;
    var r := Run(key, offset, [s]);
    HeaderEmpty(key, offset);
    RunWithMore(0, 0, Run(key, offset, []), s);
    assert Run(key, offset, []).samples + [s] == [s];
    assert (rs + [r])[..|rs|] == rs;
    assert v + RunHeader(key, offset) + (U32(s.duration) + U32(s.size)) == v + (RunHeader(key, offset) + (U32(s.duration) + U32(s.size)));
  }

  /** Continuing the open run. */
  lemma ContinueRun(rs: seq<Run>, v: Bytes, boxPos: nat, s: Sample)
    requires rs != [] && Written(rs, v, boxPos) && s.duration < 0x8000_0000 && s.size < 0x1_0000_0000
    requires RunFits(rs[|rs| - 1].(samples := rs[|rs| - 1].samples + [s]))
    ensures var last := rs[|rs| - 1];
            Written(rs[..|rs| - 1] + [last.(samples := last.samples + [s])], v + (U32(s.duration) + U32(s.size)), boxPos)
  {
    hide U32, AllRuns, RunWith;
    var front, last := rs[..|rs| - 1], rs[|rs| - 1];
    RunWithMore(0, 0, last, s);
    var more := last.(samples := last.samples + [s]);
    assert (front + [more])[..|front|] == front;
    var a, b, c := AllRuns(front), RunWith(0, 0, last), U32(s.duration) + U32(s.size);
    assert a + b + c == a + (b + c);
  }

  /** The last run with its last sample cut. */
  function CutLast(rs: seq<Run>, duration: nat): seq<Run>
    requires rs != [] && rs[|rs| - 1].samples != []
  {
    rs[..|rs| - 1] + [CutRun(rs[|rs| - 1], duration)]
  }

  lemma CutBytes(r: Run, duration: nat)
    requires RunFits(r) && r.samples != [] && duration < 0x8000_0000
    ensures RunFits(CutRun(r, duration)) && |RunBytes(r)| >= 8
    ensures Put(RunBytes(r), |RunBytes(r)| - 8, U32(duration)) == RunBytes(CutRun(r, duration))
  {
    hide U32, RunFlags;
    var cut, n := CutRun(r, duration), |r.samples| - 1;
    assert cut.samples[..n] == r.samples[..n];
    SampleBytesMore(r.samples, cut.samples, n);
    var front := U32(RunSize(r)) + (TRUN + RunFlags(r.key)) + U32(|r.samples|);
    var mid := U32(r.offset % 0x1_0000_0000) + (if r.key then U32(FIRST_FLAGS) else []);
    var samples, old_, new_, size := SampleBytes(r.samples, n), U32(r.samples[n].duration), U32(duration), U32(r.samples[n].size);
    assert RunBytes(r) == front + (mid + (samples + (old_ + size)));
    assert RunBytes(cut) == front + (mid + (samples + (new_ + size)));
    Regrouped(front, mid, samples, old_, size);
    Regrouped(front, mid, samples, new_, size);
    PutInside(front + mid + samples, old_, new_, size);
  }

  lemma Regrouped(a: Bytes, b: Bytes, c: Bytes, d: Bytes, e: Bytes)
    ensures a + (b + (c + (d + e))) == (a + b + c) + (d + e)
  {
  }

  lemma PutInside(a: Bytes, b: Bytes, b1: Bytes, c: Bytes)
    requires |b| == |b1|
    ensures Put(a + (b + c), |a|, b1) == a + (b1 + c)
  {
  }

  lemma PutSuffix(a: Bytes, b: Bytes, i: nat, piece: Bytes)
    requires i + |piece| <= |b|
    ensures Put(a + b, |a| + i, piece) == a + Put(b, i, piece)
  {
  }

  lemma CutAll(rs: seq<Run>, duration: nat)
    requires rs != [] && RunsFit(rs) && rs[|rs| - 1].samples != [] && duration < 0x8000_0000
    ensures RunsFit(CutLast(rs, duration)) && |AllRuns(rs)| >= 8
    ensures Put(AllRuns(rs), |AllRuns(rs)| - 8, U32(duration)) == AllRuns(CutLast(rs, duration))
  {
    hide U32, RunBytes, AllRuns, CutRun, Put;
    var front, last := rs[..|rs| - 1], rs[|rs| - 1];
    FrontFits(rs);
    CutBytes(last, duration);
    assert rs == front + [last];
    AllRunsLast(front, last);
    AllRunsLast(front, CutRun(last, duration));
    PutSuffix(AllRuns(front), RunBytes(last), |RunBytes(last)| - 8, U32(duration));
  }

  /** The writing loop before frame k. */
  ghost predicate Writing(fs: seq<It>, pos: nat, k: nat, v: Bytes, boxPos: nat, count: nat, dataPos: nat) {
    && k <= |fs| < 0x1_0000 && Tabled(fs, 0)
    && Written(RunsOf(fs, k, pos), v, boxPos) && dataPos == pos + SizesIn(fs, 0, k)
    && (k > 0 ==> var rs := RunsOf(fs, k, pos); count == |rs[|rs| - 1].samples|)
  }

  /** No run is open: the buffer holds finished runs only. */
  ghost predicate Closed(fs: seq<It>, pos: nat, k: nat, v: Bytes, dataPos: nat) {
    && k <= |fs| < 0x1_0000 && Tabled(fs, 0) && dataPos == pos + SizesIn(fs, 0, k)
    && RunsFit(RunsOf(fs, k, pos)) && v == AllRuns(RunsOf(fs, k, pos))
  }

  lemma ClosedStart(fs: seq<It>, pos: nat)
    requires |fs| < 0x1_0000 && Tabled(fs, 0)
    ensures Closed(fs, pos, 0, [], pos)
  {
  }

  /** Before a key frame and at the end the open run is finished. */
  lemma WritingFinish(fs: seq<It>, pos: nat, k: nat, v: Bytes, boxPos: nat, count: nat, dataPos: nat)
    requires 0 < k && Writing(fs, pos, k, v, boxPos, count, dataPos)
    ensures boxPos + 16 <= |v| && |v| - boxPos < 0x1_0000_0000 && count < 0x1_0000_0000
    ensures Closed(fs, pos, k, Put(Put(v, boxPos, U32(|v| - boxPos)), boxPos + 12, U32(count)), dataPos)
  {
    hide U32, RunsOf, Put;
    Finished(RunsOf(fs, k, pos), v, boxPos);
  }

  /** A frame's sample goes to a new run or the open one. */
  lemma WritingNew(fs: seq<It>, pos: nat, k: nat, v: Bytes, dataPos: nat)
    requires k < |fs| && Closed(fs, pos, k, v, dataPos) && (k == 0 || fs[k].isKey)
    ensures fs[k].duration < 0x1_0000_0000 && fs[k].bytes < 0x1_0000_0000
    ensures Writing(fs, pos, k + 1, v + RunHeader(fs[k].isKey, dataPos) + (U32(fs[k].duration) + U32(fs[k].bytes)), |v|, 1, dataPos + fs[k].bytes)
  {
    hide U32, RunHeader, Written, AllRuns;
    StartRun(RunsOf(fs, k, pos), v, fs[k].isKey, dataPos, SampleOf(fs[k]));
  }

  lemma WritingSame(fs: seq<It>, pos: nat, k: nat, v: Bytes, boxPos: nat, count: nat, dataPos: nat)
    requires 0 < k < |fs| && !fs[k].isKey && Writing(fs, pos, k, v, boxPos, count, dataPos)
    ensures fs[k].duration < 0x1_0000_0000 && fs[k].bytes < 0x1_0000_0000
    ensures Writing(fs, pos, k + 1, v + (U32(fs[k].duration) + U32(fs[k].bytes)), boxPos, count + 1, dataPos + fs[k].bytes)
  {
    hide U32, Written, AllRuns;
    RunsSmall(fs, k + 1, pos);
    var rs := RunsOf(fs, k, pos);
    assert RunsOf(fs, k + 1, pos)[|rs| - 1] == rs[|rs| - 1].(samples := rs[|rs| - 1].samples + [SampleOf(fs[k])]);
    ContinueRun(rs, v, boxPos, SampleOf(fs[k]));
  }

  /** The frames' runs, the last sample cut to the requested end. */
  function TrunsSpec(fs: seq<It>, pos: nat, end: int): (rs: seq<Run>)
    requires fs != [] && |fs| < 0x1_0000 && Tabled(fs, 0) && fs[|fs| - 1].start <= end
    ensures RunsFit(rs)
  {
    RunsSmall(fs, |fs|, pos);
    var rs := RunsOf(fs, |fs|, pos);
    CutAll(rs, Shown(fs, end, |fs| - 1));
    CutLast(rs, Shown(fs, end, |fs| - 1))
  }

  /** The loop of `truns`: boxes are written with empty length and count fields that are filled in
      when the run ends. */
  method WriteRuns(fs: seq<It>, pos: nat, end: int) returns (v: Bytes)
    requires fs != [] && |fs| < 0x1_0000 && Tabled(fs, 0) && fs[|fs| - 1].start <= end
    ensures v == AllRuns(TrunsSpec(fs, pos, end))
  {
    var st := Writer(false, [], 0, 0, pos);
    ClosedStart(fs, pos);
    hide Writing, Closed, Put, TrunsSpec, U32;
    for k := 0 to |fs|
      invariant st.open == (k > 0) && WriterAt(fs, pos, k, st)
    {
      st := AddFrame(fs, pos, k, st);
    }
    v := FinishRun(fs, pos, |fs|, st.v, st.boxPos, st.count, st.dataPos);
    CutEnd(fs, pos, end, v, st.dataPos);
    v := Put(v, |v| - 8, U32(Shown(fs, end, |fs| - 1)));
  }

  /** The writing loop's variables: the buffer, and the open run's box position and count. */
  datatype Writer = Writer(open: bool, v: Bytes, boxPos: nat, count: nat, dataPos: nat)

  ghost predicate WriterAt(fs: seq<It>, pos: nat, k: nat, st: Writer) {
    if st.open then Writing(fs, pos, k, st.v, st.boxPos, st.count, st.dataPos) else Closed(fs, pos, k, st.v, st.dataPos)
  }

  /** One frame: a key frame finishes the open run; a run is started if none is open. */
  method AddFrame(fs: seq<It>, ghost pos: nat, k: nat, st: Writer) returns (st1: Writer)
    requires k < |fs| && st.open == (k > 0) && WriterAt(fs, pos, k, st)
    ensures st1.open && WriterAt(fs, pos, k + 1, st1)
  {
    hide Writing, Closed, RunHeader, U32;
    var f, open, v, boxPos, count := fs[k], st.open, st.v, st.boxPos, st.count;
    if f.isKey && open {
      v := FinishRun(fs, pos, k, v, boxPos, count, st.dataPos);
      open := false;
    }
    if open {
      WritingSame(fs, pos, k, v, boxPos, count, st.dataPos);
    } else {
      WritingNew(fs, pos, k, v, st.dataPos);
      boxPos, count := |v|, 0;
      v := v + RunHeader(f.isKey, st.dataPos);
    }
    v := v + (U32(f.duration) + U32(f.bytes));
    st1 := Writer(true, v, boxPos, count + 1, st.dataPos + f.bytes);
  }

  method FinishRun(fs: seq<It>, ghost pos: nat, ghost k: nat, v: Bytes, boxPos: nat, count: nat, ghost dataPos: nat) returns (v1: Bytes)
    requires 0 < k && Writing(fs, pos, k, v, boxPos, count, dataPos)
    ensures Closed(fs, pos, k, v1, dataPos)
  {
    WritingFinish(fs, pos, k, v, boxPos, count, dataPos);
    v1 := Put(v, boxPos, U32(|v| - boxPos));
    v1 := Put(v1, boxPos + 12, U32(count));
  }

  lemma CutEnd(fs: seq<It>, pos: nat, end: int, v: Bytes, dataPos: nat)
    requires fs != [] && fs[|fs| - 1].start <= end && Closed(fs, pos, |fs|, v, dataPos)
    ensures |v| >= 8 && 0 <= Shown(fs, end, |fs| - 1) < 0x1_0000_0000
    ensures Put(v, |v| - 8, U32(Shown(fs, end, |fs| - 1))) == AllRuns(TrunsSpec(fs, pos, end))
  {
    hide AllRuns, RunsOf, Put, U32;
    RunsSmall(fs, |fs|, pos);
    CutAll(RunsOf(fs, |fs|, pos), Shown(fs, end, |fs| - 1));
  }

  // -- lengths -----------------------------------------------------------------------------

  /** `truns_len`. */
  function TrunsLen(frames: nat, keyFrames: nat, startsWithNonkey: bool): nat {
    keyFrames * 24 + frames * 8 + if startsWithNonkey then 20 else 0
  }

  ghost function SumRunSizes(rs: seq<Run>): nat {
    if rs == [] then 0 else SumRunSizes(rs[..|rs| - 1]) + RunSize(rs[|rs| - 1])
  }

  lemma {:induction false} AllRunsLength(rs: seq<Run>)
    requires RunsFit(rs)
    ensures |AllRuns(rs)| == SumRunSizes(rs)
  {
    if rs != [] {
      FrontFits(rs);
      AllRunsLength(rs[..|rs| - 1]);
    }
  }

  lemma SumLast(rs: seq<Run>, r: Run)
    ensures SumRunSizes(rs + [r]) == SumRunSizes(rs) + RunSize(r)
  {
    assert (rs + [r])[..|rs|] == rs;
  }

  lemma {:induction false} RunsOfSizes(fs: seq<It>, k: nat, pos: nat)
    requires k <= |fs|
    ensures SumRunSizes(RunsOf(fs, k, pos)) == TrunsLen(k, KeysIn(fs, 0, k), k > 0 && !fs[0].isKey)
    ensures k > 0 ==> RunsOf(fs, k, pos) != []
  {
    hide SumRunSizes;
    if k == 0 {
      NoRuns();
    } else {
      RunsOfSizes(fs, k - 1, pos);
      var rs, f := RunsOf(fs, k - 1, pos), fs[k - 1];
      if f.isKey || rs == [] {
        SumLast(rs, Run(f.isKey, pos + SizesIn(fs, 0, k - 1), [SampleOf(f)]));
      } else {
        var front, last := rs[..|rs| - 1], rs[|rs| - 1];
        SumLast(front, last.(samples := last.samples + [SampleOf(f)]));
        SumLast(front, last);
        assert rs == front + [last];
      }
    }
  }

  lemma NoRuns()
    ensures SumRunSizes([]) == 0
  {
  }

  /** `truns_len` is exactly the number of bytes produced. */
  lemma TrunsLength(fs: seq<It>, pos: nat, end: int)
    requires fs != [] && |fs| < 0x1_0000 && Tabled(fs, 0) && fs[|fs| - 1].start <= end
    ensures |AllRuns(TrunsSpec(fs, pos, end))| == TrunsLen(|fs|, KeysIn(fs, 0, |fs|), !fs[0].isKey)
  {
    hide SumRunSizes, RunsOf, AllRuns;
    RunsSmall(fs, |fs|, pos);
    var rs := RunsOf(fs, |fs|, pos);
    var front, last := rs[..|rs| - 1], rs[|rs| - 1];
    SumLast(front, last);
    SumLast(front, CutRun(last, Shown(fs, end, |fs| - 1)));
    assert rs == front + [last];
    RunsOfSizes(fs, |fs|, pos);
    AllRunsLength(TrunsSpec(fs, pos, end));
  }

  /** `truns` of a segment that `Segment::new` made. */
  method Truns(seg: Segment, data: Bytes, initialPos: nat, end: int, len: nat, ghost row: Row, ghost its: seq<It>, ghost b: nat, ghost e: nat)
    returns (r: Result<Bytes>)
    requires seg.begin.Some? ==> seg.begin.value.i <= |data|
    requires Indexed(row, data, its) && Holds(seg, its, b, e) && its[e - 1].start <= end
    ensures its[b..e] != [] && |its[b..e]| < 0x1_0000 && Tabled(its[b..e], 0)
    ensures r.Ok? <==> len == TrunsLen(seg.frames, seg.keyFrames, seg.begin.Some? && !seg.begin.value.isKey)
    ensures r.Ok? ==> r.value == AllRuns(TrunsSpec(its[b..e], initialPos, end)) && |r.value| == len
  {
    var visited := Foreach(seg, data, row, its, b, e);
    var fs := visited.value;
    FramesTabled(row, data, its, seg, b, e, 0);
    TrunsLength(fs, initialPos, end);
    KeysShift(its, b, e, e - b);
    var v := WriteRuns(fs, initialPos, end);
    return if len == |v| then Ok(v) else Err;
  }

  // -- reading runs ------------------------------------------------------------------------

  /** Whether a field of flags has the bit b, a power of two. */
  predicate Bit(x: nat, b: nat)
    requires b > 0
  {
    x / b % 2 == 1
  }

  /** One sample of a trun as read; what its fields leave out is `None`. */
  datatype TrunSample = TrunSample(duration: Option<nat>, size: Option<nat>, flags: Option<nat>)

  /** A trun as read: the data offset and the first sample's flags, if present, and the samples. */
  datatype Trun = Trun(offset: Option<nat>, first: Option<nat>, samples: seq<TrunSample>)

  function Flagged(flags: nat, b: nat): (n: nat)
    requires b > 0
  {
    if Bit(flags, b) then 4 else 0
  }

  /** How long a sample's fields are: duration, size, flags, composition time offset. */
  function Stride(flags: nat): nat {
    Flagged(flags, 0x100) + Flagged(flags, 0x200) + Flagged(flags, 0x400) + Flagged(flags, 0x800)
  }

  function OneSample(data: Bytes, i: nat, flags: nat): TrunSample
    requires i + Stride(flags) <= |data|
  {
    var j := i + Flagged(flags, 0x100);
    var k := j + Flagged(flags, 0x200);
    TrunSample(if Bit(flags, 0x100) then Some(Read32(data, i)) else None,
               if Bit(flags, 0x200) then Some(Read32(data, j)) else None,
               if Bit(flags, 0x400) then Some(Read32(data, k)) else None)
  }

  /** n samples from i on, and where they end. */
  function ReadSamples(data: Bytes, i: nat, n: nat, flags: nat): Option<(seq<TrunSample>, nat)>
    decreases n
  {
    if n == 0 then Some(([], i))
    else if i + Stride(flags) > |data| then None
    else
      match ReadSamples(data, i + Stride(flags), n - 1, flags)
      case None => None
      case Some((rest, end)) => Some(([OneSample(data, i, flags)] + rest, end))
  }

  /** What a reader makes of a trun's body, as its tr_flags say: 0x1 a data offset follows the count, 0x4
      then flags for the first sample, 0x100, 0x200, 0x400 and 0x800 each sample has a duration, a size,
      flags, a composition time offset. */
  function ReadRun(body: Bytes): Option<Trun> {
    if |body| < 8 || Read32(body, 0) >= 0x200_0000 then None
    else
      var flags := Read32(body, 0) % 0x100_0000;
      var i := 8 + Flagged(flags, 0x1);
      var j := i + Flagged(flags, 0x4);
      if j > |body| then None
      else
        match ReadSamples(body, j, Read32(body, 4), flags)
        case None => None
        case Some((samples, end)) =>
          if end != |body| then None
          else Some(Trun(if Bit(flags, 0x1) then Some(Read32(body, 8)) else None,
                         if Bit(flags, 0x4) then Some(Read32(body, i)) else None, samples))
  }

  /** What a run should be read as. */
  function AsRead(r: Run): Trun {
    Trun(Some(r.offset % 0x1_0000_0000), if r.key then Some(FIRST_FLAGS) else None, SamplesAsRead(r.samples))
  }

  function SamplesAsRead(samples: seq<Sample>): (r: seq<TrunSample>)
    ensures |r| == |samples|
  {
    seq(|samples|, k requires 0 <= k < |samples| => TrunSample(Some(samples[k].duration), Some(samples[k].size), None))
  }

  /** The body of a run's box. */
  function RunBody(r: Run): Bytes
    requires RunFits(r)
  {
    RunFlags(r.key) + (U32(|r.samples|) + RunTail(r))
  }

  lemma RunBoxed(r: Run)
    requires RunFits(r)
    ensures RunBytes(r) == Boxed(TRUN, RunBody(r))
  {
    hide U32;
    assert |TRUN| == 4;
    assert RunSize(r) == 4 + |TRUN| + |RunBody(r)|;
    var a, b, c := RunFlags(r.key), U32(|r.samples|), RunTail(r);
    assert U32(RunSize(r)) + (TRUN + a) + b + c == U32(RunSize(r)) + (TRUN + (a + (b + c)));
  }

  lemma {:induction false} SampleBytesAt(samples: seq<Sample>, k: nat, n: nat)
    requires k < n <= |samples|
    requires forall j | 0 <= j < |samples| :: samples[j].duration < 0x8000_0000 && samples[j].size < 0x1_0000_0000
    ensures At(SampleBytes(samples, n), 8 * k, U32(samples[k].duration) + U32(samples[k].size))
    decreases n
  {
    hide U32, At;
    var piece, last := U32(samples[k].duration) + U32(samples[k].size), U32(samples[n - 1].duration) + U32(samples[n - 1].size);
    if k < n - 1 {
      SampleBytesAt(samples, k, n - 1);
      AtLonger(SampleBytes(samples, n - 1), last, 8 * k, piece);
    } else {
      AtEnd(SampleBytes(samples, k), piece);
    }
  }

  /** The flags a run is written with. */
  ghost predicate SampleFlags(flags: nat) {
    Bit(flags, 0x100) && Bit(flags, 0x200) && !Bit(flags, 0x400) && !Bit(flags, 0x800)
  }

  lemma OneBack(data: Bytes, i: nat, flags: nat, s: Sample)
    requires SampleFlags(flags) && s.duration < 0x8000_0000 && s.size < 0x1_0000_0000
    requires At(data, i, U32(s.duration) + U32(s.size))
    ensures Stride(flags) == 8 && i + 8 <= |data|
    ensures OneSample(data, i, flags) == TrunSample(Some(s.duration), Some(s.size), None)
  {
    hide U32, Read32, Bit;
    AtSplit(data, i, U32(s.duration), U32(s.size));
    Back32(data, i, s.duration);
    Back32(data, i + 4, s.size);
  }

  lemma {:induction false} SamplesBack(front: Bytes, samples: seq<Sample>, k: nat, flags: nat)
    requires k <= |samples| && SampleFlags(flags)
    requires forall j | 0 <= j < |samples| :: samples[j].duration < 0x8000_0000 && samples[j].size < 0x1_0000_0000
    ensures ReadSamples(front + SampleBytes(samples, |samples|), |front| + 8 * k, |samples| - k, flags)
            == Some((SamplesAsRead(samples)[k..], |front| + 8 * |samples|))
    decreases |samples| - k
  {
    hide U32, OneSample, SampleBytes, SampleFlags, Stride;
    var table := SampleBytes(samples, |samples|);
    if k < |samples| {
      SamplesBack(front, samples, k + 1, flags);
      SampleBytesAt(samples, k, |samples|);
      AtBehind(front, table, 8 * k, U32(samples[k].duration) + U32(samples[k].size));
      OneBack(front + table, |front| + 8 * k, flags, samples[k]);
      var all := SamplesAsRead(samples);
      assert all[k..] == [all[k]] + all[k + 1..];
    } else {
      assert SamplesAsRead(samples)[k..] == [];
    }
  }

  lemma AtBehind(front: Bytes, data: Bytes, i: nat, piece: Bytes)
    requires At(data, i, piece)
    ensures At(front + data, |front| + i, piece)
  {
    assert (front + data)[|front| + i..|front| + i + |piece|] == data[i..i + |piece|];
  }

  /** A trun reads back as its run, with the data offset modulo 2^32. */
  lemma RunBack(r: Run)
    requires RunFits(r)
    ensures ReadRun(RunBody(r)) == Some(AsRead(r))
  {
    hide U32, Read32, ReadSamples, RunBody, Bit, SampleFlags;
    RunFields(r);
    FlagBits(r.key);
    RunSamples(r, 0x301 + if r.key then 4 else 0);
    var all := SamplesAsRead(r.samples);
    assert all[0..] == all;
  }

  lemma FlagBits(key: bool)
    ensures var flags := 0x301 + if key then 4 else 0;
            SampleFlags(flags) && Bit(flags, 0x1) && (Bit(flags, 0x4) <==> key)
  {
  }

  lemma RunFields(r: Run)
    requires RunFits(r)
    ensures |RunBody(r)| == (if r.key then 16 else 12) + 8 * |r.samples|
    ensures Read32(RunBody(r), 0) == 0x301 + if r.key then 4 else 0
    ensures Read32(RunBody(r), 4) == |r.samples| && Read32(RunBody(r), 8) == r.offset % 0x1_0000_0000
    ensures r.key ==> Read32(RunBody(r), 12) == FIRST_FLAGS
  {
    hide U32, Read32, SampleBytes;
    var n, first, samples := |r.samples|, if r.key then U32(FIRST_FLAGS) else [], SampleBytes(r.samples, |r.samples|);
    var a, b, c := RunFlags(r.key), RunFlags(r.key) + U32(n), RunFlags(r.key) + U32(n) + U32(r.offset % 0x1_0000_0000);
    assert RunBody(r) == a + U32(n) + (U32(r.offset % 0x1_0000_0000) + first + samples);
    assert RunBody(r) == b + U32(r.offset % 0x1_0000_0000) + (first + samples);
    assert RunBody(r) == c + first + samples;
    FlagsRead(r.key, RunBody(r)[4..]);
    assert RunBody(r) == a + RunBody(r)[4..];
    FieldRead(a, n, U32(r.offset % 0x1_0000_0000) + first + samples);
    FieldRead(b, r.offset % 0x1_0000_0000, first + samples);
    if r.key {
      FieldRead(c, FIRST_FLAGS, samples);
    }
  }

  lemma FlagsRead(key: bool, rest: Bytes)
    ensures Read32(RunFlags(key) + rest, 0) == 0x301 + if key then 4 else 0
  {
  }

  lemma FieldRead(front: Bytes, x: nat, rest: Bytes)
    requires x < 0x1_0000_0000
    ensures |front + U32(x) + rest| >= |front| + 4 && Read32(front + U32(x) + rest, |front|) == x
  {
    hide U32, Read32;
    AtEnd(front, U32(x));
    AtLonger(front + U32(x), rest, |front|, U32(x));
    Back32(front + U32(x) + rest, |front|, x);
  }

  lemma RunSamples(r: Run, flags: nat)
    requires RunFits(r) && SampleFlags(flags)
    ensures |RunBody(r)| == (if r.key then 16 else 12) + 8 * |r.samples|
    ensures ReadSamples(RunBody(r), if r.key then 16 else 12, |r.samples|, flags) == Some((SamplesAsRead(r.samples)[0..], |RunBody(r)|))
  {
    hide U32, ReadSamples, SampleFlags, SampleBytes;
    var front := RunFlags(r.key) + U32(|r.samples|) + U32(r.offset % 0x1_0000_0000) + (if r.key then U32(FIRST_FLAGS) else []);
    assert RunBody(r) == front + SampleBytes(r.samples, |r.samples|);
    SamplesBack(front, r.samples, 0, flags);
  }

  // -- the cut runs' samples ---------------------------------------------------------------

  ghost function CutPlaces(ps: seq<Place>, duration: nat): seq<Place>
    requires ps != []
  {
    ps[..|ps| - 1] + [ps[|ps| - 1].(duration := duration)]
  }

  lemma {:induction false} SamePlaces(a: Run, b: Run, k: nat)
    requires a.offset == b.offset && k <= |a.samples| && k <= |b.samples| && a.samples[..k] == b.samples[..k]
    ensures RunPlaces(a, k) == RunPlaces(b, k) && SampleSizes(a, k) == SampleSizes(b, k)
  {
    if k > 0 {
      assert a.samples[..k - 1] == a.samples[..k][..k - 1] && b.samples[..k - 1] == b.samples[..k][..k - 1];
      assert a.samples[..k][k - 1] == b.samples[..k][k - 1];
      SamePlaces(a, b, k - 1);
    }
  }

  /** Cutting the last duration moves no sample. */
  lemma {:induction false} CutMoves(rs: seq<Run>, duration: nat)
    requires rs != [] && rs[|rs| - 1].samples != []
    ensures Places(rs) != [] && Places(CutLast(rs, duration)) == CutPlaces(Places(rs), duration)
  {
    var front, last := rs[..|rs| - 1], rs[|rs| - 1];
    var cut, n := CutRun(last, duration), |last.samples| - 1;
    assert cut.samples[..n] == last.samples[..n];
    SamePlaces(cut, last, n);
    PlacesLast(front, cut);
    PlacesLast(front, last);
    assert front + [last] == rs;
    CutJoin(Places(front), RunPlaces(last, n), Place(last.offset + SampleSizes(last, n), last.samples[n].size, last.samples[n].duration), duration);
  }

  lemma CutJoin(a: seq<Place>, b: seq<Place>, p: Place, duration: nat)
    ensures CutPlaces(a + (b + [p]), duration) == a + (b + [p.(duration := duration)])
  {
    var whole := a + (b + [p]);
    assert whole[..|whole| - 1] == a + b;
  }

  /** The samples of a segment's truns: every frame where its bytes are, shown as long as asked. */
  lemma TrunsPlaces(fs: seq<It>, pos: nat, end: int)
    requires fs != [] && |fs| < 0x1_0000 && Tabled(fs, 0) && fs[|fs| - 1].start <= end
    ensures FramePlaces(fs, |fs|, pos) != []
    ensures Places(TrunsSpec(fs, pos, end)) == CutPlaces(FramePlaces(fs, |fs|, pos), Shown(fs, end, |fs| - 1))
  {
    hide Places, RunsOf;
    RunsSmall(fs, |fs|, pos);
    RunsPlaces(fs, |fs|, pos);
    SmallAt(RunsOf(fs, |fs|, pos), |fs|, |RunsOf(fs, |fs|, pos)| - 1);
    CutMoves(RunsOf(fs, |fs|, pos), Shown(fs, end, |fs| - 1));
  }

  lemma {:induction false} FramePlaceAt(fs: seq<It>, k: nat, n: nat, pos: nat)
    requires k < n <= |fs|
    ensures |FramePlaces(fs, n, pos)| == n
    ensures FramePlaces(fs, n, pos)[k] == Place(pos + SizesIn(fs, 0, k), fs[k].bytes, fs[k].duration)
    decreases n
  {
    if k < n - 1 {
      FramePlaceAt(fs, k, n - 1, pos);
    } else if n > 1 {
      FramePlaceAt(fs, 0, n - 1, pos);
    }
  }

  lemma {:induction false} PlacesBoth(a: seq<Run>, b: seq<Run>)
    ensures Places(a + b) == Places(a) + Places(b)
    decreases |b|
  {
    hide Places, RunPlaces;
    if b == [] {
      NoPlaces(0);
      assert a + b == a && Places(a) + [] == Places(a);
    } else {
      var front, last := b[..|b| - 1], b[|b| - 1];
      PlacesBoth(a, front);
      var more := RunPlaces(last, |last.samples|);
      PlacesLast(a + front, last);
      PlacesLast(front, last);
      assert (a + front) + [last] == a + b && front + [last] == b;
      assert Places(a) + Places(front) + more == Places(a) + (Places(front) + more);
    }
  }
}
