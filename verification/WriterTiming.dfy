/** How the stream writer times a run of recordings (server/db/writer.rs). */
module WriterTiming {
  import opened Base

  /** Five minutes in 90 kHz units (server/db/recording.rs). */
  const MAX_RECORDING_WALL_DURATION: nat := 27_000_000
  /** `Time::MAX`. */
  const TIME_MAX: int := 0x7FFF_FFFF_FFFF_FFFF

  type i64 = x: int | -0x8000_0000_0000_0000 <= x < 0x8000_0000_0000_0000

  /** x is k times around the 64-bit integers. */
  predicate Around(x: int, k: int) {
    x == k * 0x1_0000_0000_0000_0000
  }

  ghost predicate Wraps(x: int) {
    exists k :: Around(x, k)
  }

  /** `wrapping_sub` on i64. */
  function WrappingSub(a: i64, b: i64): (d: i64)
    ensures Wraps(a - b - d)
    ensures -0x8000_0000_0000_0000 <= a - b < 0x8000_0000_0000_0000 ==> d == a - b
  {
    var x := a - b + 0x8000_0000_0000_0000;
    assert Around(x - x % 0x1_0000_0000_0000_0000, x / 0x1_0000_0000_0000_0000);
    x % 0x1_0000_0000_0000_0000 - 0x8000_0000_0000_0000
  }

  /** A sample as passed to `write`: the local clock's time and its pts. */
  datatype Sample = Sample(localTime: i64, pts: i64)

  /** The timing fields of a `RecentRecording` and the durations of its samples. */
  datatype Recording = Recording(runOffset: nat, start: int, localTimeDelta: int, wall: int, media: nat,
                                 durations: seq<nat>, growing: bool)

  function Sum(durations: seq<nat>): nat {
    if durations == [] then 0 else Sum(durations[..|durations| - 1]) + durations[|durations| - 1]
  }

  function TotalMedia(recs: seq<Recording>): nat {
    if recs == [] then 0 else TotalMedia(recs[..|recs| - 1]) + recs[|recs| - 1].media
  }

  function TotalWall(recs: seq<Recording>): int {
    if recs == [] then 0 else TotalWall(recs[..|recs| - 1]) + recs[|recs| - 1].wall
  }

  // -- what a run looks like ---------------------------------------------------------------------

  /** Wall differs from media by at most 500 ppm and both are within five minutes. */
  predicate WallOk(wall: int, media: int) {
    && 0 <= media <= MAX_RECORDING_WALL_DURATION && 0 <= wall <= MAX_RECORDING_WALL_DURATION
    && media - media / 2000 <= wall <= media + media / 2000
  }

  /** A recording starts where the one before ends. */
  ghost predicate Starts(recs: seq<Recording>, i: nat)
    requires 0 < i < |recs|
  {
    recs[i].start == recs[i - 1].start + recs[i - 1].wall
  }

  ghost predicate RecordingOk(r: Recording, i: nat, lastOfRun: bool) {
    && r.runOffset == i && WallOk(r.wall, r.media) && (i == 0 ==> r.wall == r.media)
    && r.durations != [] && r.media == Sum(r.durations)
    && forall j | 0 <= j < |r.durations| :: r.durations[j] == 0 ==> lastOfRun && j == |r.durations| - 1
  }

  /** A run of recordings; a zero duration is only at the very end of a run that has ended. */
  ghost predicate RunOk(recs: seq<Recording>, ended: bool) {
    && (forall i | 0 <= i < |recs| :: RecordingOk(recs[i], i, ended && i == |recs| - 1))
    && (forall i | 0 < i < |recs| :: Starts(recs, i))
  }

  /** The run's recordings are adjacent: together they span the sum of their wall durations. */
  lemma {:induction false} RunIsContiguous(recs: seq<Recording>, ended: bool)
    requires RunOk(recs, ended) && recs != []
    ensures recs[|recs| - 1].start + recs[|recs| - 1].wall == recs[0].start + TotalWall(recs)
    decreases |recs|
  {
    if |recs| > 1 {
      PrefixOk(recs, ended);
      assert Starts(recs, |recs| - 1);
      RunIsContiguous(recs[..|recs| - 1], false);
    } else {
      assert TotalWall(recs[..0]) == 0;
    }
  }

  lemma PrefixOk(recs: seq<Recording>, ended: bool)
    requires RunOk(recs, ended) && |recs| > 0
    ensures RunOk(recs[..|recs| - 1], false)
  {
    var before := recs[..|recs| - 1];
    forall i | 0 < i < |before| ensures Starts(before, i) {
      assert Starts(recs, i);
    }
    forall i | 0 <= i < |before| ensures RecordingOk(before[i], i, false) {
      assert RecordingOk(recs[i], i, ended && i == |recs| - 1);
    }
  }

  /** Over a whole run the wall clock drifts from the media by at most 500 ppm. */
  lemma {:induction false} RunDriftsLittle(recs: seq<Recording>, ended: bool)
    requires RunOk(recs, ended)
    ensures TotalMedia(recs) - TotalMedia(recs) / 2000 <= TotalWall(recs) <= TotalMedia(recs) + TotalMedia(recs) / 2000
    decreases |recs|
  {
    if recs != [] {
      PrefixOk(recs, ended);
      RunDriftsLittle(recs[..|recs| - 1], false);
      assert RecordingOk(recs[|recs| - 1], |recs| - 1, ended);
      DriftsAdd(TotalMedia(recs[..|recs| - 1]), TotalWall(recs[..|recs| - 1]), recs[|recs| - 1].media, recs[|recs| - 1].wall);
    }
  }

  lemma DriftsAdd(m: int, w: int, media: int, wall: int)
    requires m >= 0 && media >= 0
    requires m - m / 2000 <= w <= m + m / 2000 && media - media / 2000 <= wall <= media + media / 2000
    ensures (m + media) - (m + media) / 2000 <= w + wall <= (m + media) + (m + media) / 2000
  {
    assert m / 2000 + media / 2000 <= (m + media) / 2000;
  }

  // -- the writer --------------------------------------------------------------------------------

  function Clamp(x: int, limit: int): (c: int)
    requires limit >= 0
    ensures c == if x > limit then limit else if x < -limit then -limit else x
  {
    Max(-limit, Min(x, limit))
  }

  // -- which clock a run follows -----------------------------------------------------------------

  /** When a recording began by the local clock, judged by sample j: its time less the media up to and
      including it. */
  function BeganBy(samples: seq<Sample>, durations: seq<nat>, j: nat): int
    requires j < |samples| == |durations|
  {
    samples[j].localTime - Sum(durations[..j + 1])
  }

  /** The least of these: a sample can only arrive late. */
  ghost predicate Earliest(x: int, samples: seq<Sample>, durations: seq<nat>) {
    && |samples| == |durations|
    && (exists j :: 0 <= j < |samples| && BeganBy(samples, durations, j) == x)
    && forall j | 0 <= j < |samples| :: x <= BeganBy(samples, durations, j)
  }

  /** A recording's times follow the clock of its samples: its start plus its local time delta is when
      it began by that clock. The first of a run starts just then; the wall duration of any makes up for
      the delta, by at most 500 ppm. */
  ghost predicate FollowsClock(r: Recording, samples: seq<Sample>) {
    && Earliest(r.start + r.localTimeDelta, samples, r.durations)
    && (r.runOffset == 0 ==> r.localTimeDelta == 0)
    && r.wall == Min(r.media + Clamp(r.localTimeDelta, r.media / 2000), 27_000_000)
  }

  /** Every recording does, each by its own samples. */
  ghost predicate AllFollow(recs: seq<Recording>, samples: seq<seq<Sample>>) {
    |samples| == |recs| && forall i | 0 <= i < |recs| :: FollowsClock(recs[i], samples[i])
  }

  function AllSamples(samples: seq<seq<Sample>>): seq<Sample> {
    if samples == [] then [] else AllSamples(samples[..|samples| - 1]) + samples[|samples| - 1]
  }

  function SamplesTo(samples: seq<seq<Sample>>, open: bool, sample: Sample): seq<seq<Sample>>
    requires open ==> samples != []
  {
    if open then samples[|samples| - 1 := samples[|samples| - 1] + [sample]] else samples + [[sample]]
  }

  /** The writer's times after the sample was taken into account. */
  ghost predicate Adjusted(recs: seq<Recording>, samples: seq<seq<Sample>>, open: bool, runOffset: nat, start: int,
                           localStart: int, media: nat, wall: int, sample: Sample, duration: nat)
  {
    && (open ==> recs != [] && |samples| == |recs|)
    && Earliest(localStart, (if open then samples[|samples| - 1] else []) + [sample],
                (if open then recs[|recs| - 1].durations else []) + [duration])
    && (runOffset == 0 ==> start == localStart)
    && wall == Min(media + Clamp(localStart - start, media / 2000), 27_000_000)
  }

  lemma EarliestMore(x: int, samples: seq<Sample>, durations: seq<nat>, s: Sample, d: nat)
    requires Earliest(x, samples, durations) || (samples == [] && durations == [] && x == TIME_MAX)
    ensures Earliest(Min(x, s.localTime - (Sum(durations) + d)), samples + [s], durations + [d])
  {
    hide BeganBy, Sum;
    var more, ds, n := samples + [s], durations + [d], |samples|;
    BeganLast(samples, durations, s, d);
    forall j | 0 <= j < n ensures BeganBy(more, ds, j) == BeganBy(samples, durations, j) {
      BeganSame(samples, durations, s, d, j);
    }
    var y := s.localTime - (Sum(durations) + d);
    if samples != [] && x <= y {
      var j :| 0 <= j < n && BeganBy(samples, durations, j) == x;
      assert BeganBy(more, ds, j) == x;
    } else {
      assert BeganBy(more, ds, n) == Min(x, y);
    }
  }

  lemma BeganSame(samples: seq<Sample>, durations: seq<nat>, s: Sample, d: nat, j: nat)
    requires j < |samples| == |durations|
    ensures BeganBy(samples + [s], durations + [d], j) == BeganBy(samples, durations, j)
  {
    assert (durations + [d])[..j + 1] == durations[..j + 1];
  }

  lemma BeganLast(samples: seq<Sample>, durations: seq<nat>, s: Sample, d: nat)
    requires |samples| == |durations|
    ensures BeganBy(samples + [s], durations + [d], |samples|) == s.localTime - (Sum(durations) + d)
    ensures samples == [] ==> Sum(durations) == 0
  {
    assert (durations + [d])[..|samples| + 1] == durations + [d];
    SumLast(durations, d);
  }

  lemma PushFollows(recs: seq<Recording>, samples: seq<seq<Sample>>, open: bool, runOffset: nat, start: int,
                    localStart: int, media: nat, wall: int, sample: Sample, duration: nat)
    requires AllFollow(recs, samples) && |recs| == runOffset + (if open then 1 else 0)
    requires media == duration + if open then recs[|recs| - 1].media else 0
    requires open ==> recs[|recs| - 1].runOffset == runOffset
    requires Adjusted(recs, samples, open, runOffset, start, localStart, media, wall, sample, duration)
    ensures AllFollow(PushedTo(recs, open, runOffset, start, localStart, wall, duration), SamplesTo(samples, open, sample))
    ensures AllSamples(SamplesTo(samples, open, sample)) == AllSamples(samples) + [sample]
  {
    hide Earliest;
    var after, ss, n := PushedTo(recs, open, runOffset, start, localStart, wall, duration), SamplesTo(samples, open, sample), runOffset;
    assert [] + [duration] == [duration] && [] + [sample] == [sample];
    forall i | 0 <= i < |after| ensures FollowsClock(after[i], ss[i]) {
      assert i < n ==> FollowsClock(recs[i], samples[i]);
    }
    if open {
      assert ss[..n] == samples[..n];
      assert AllSamples(samples[..n]) + (samples[n] + [sample]) == AllSamples(samples[..n]) + samples[n] + [sample];
    } else {
      assert ss[..n] == samples;
    }
  }

  ghost predicate Growing(recs: seq<Recording>, open: bool) {
    forall i | 0 <= i < |recs| :: recs[i].growing <==> open && i == |recs| - 1
  }

  /** The media durations add up to the difference of the first and last pts, on 64-bit integers that
      wrap around. */
  ghost predicate PtsOk(last: i64, first: i64, total: int) {
    Wraps(last - first - total)
  }

  /** `Writer` with its `InnerWriter`; `recs` are the recordings that it has added to the stream.
      `firstPts` and `lastPts` are the first and last sample's that were not discarded. */
  class Writer {
    var open: bool
    var runOffset: nat
    var media: nat
    var wall: int
    var start: int
    var localStart: int
    var unfinished: Option<Sample>
    var ended: bool
    var recs: seq<Recording>
    /** The samples of each recording. */
    ghost var samples: seq<seq<Sample>>
    ghost var firstPts: i64
    ghost var lastPts: i64

    ghost predicate Valid()
      reads this
    {
      && Standing(ended)
      && (unfinished.None? ==> recs == [] || ended) && (ended ==> unfinished.None? && !open)
      && (unfinished.Some? ==> lastPts == unfinished.value.pts)
      && PtsOk(lastPts, firstPts, TotalMedia(recs))
    }

    /** The recordings are a run that follows its samples' clock, and the writer's times are those of
        the open recording or of none yet. */
    ghost predicate Standing(over: bool)
      reads this
    {
      && RunOk(recs, over) && WallOk(wall, media) && (runOffset == 0 ==> wall == media)
      && |recs| == runOffset + (if open then 1 else 0)
      && Growing(recs, open) && AllFollow(recs, samples)
      && (if open then Mirrors(recs[|recs| - 1])
          else media == 0 && localStart == TIME_MAX && (recs != [] ==> start == recs[|recs| - 1].start + recs[|recs| - 1].wall))
    }

    /** The open recording has the writer's own times. */
    ghost predicate Mirrors(r: Recording)
      reads this
    {
      r.media == media && r.wall == wall && r.start == start && r.start + r.localTimeDelta == localStart
    }

    constructor ()
      ensures Valid() && recs == [] && unfinished.None? && !ended && samples == []
    {
      open, runOffset, media, wall := false, 0, 0, 0;
      start, localStart, unfinished, ended, recs := TIME_MAX, TIME_MAX, None, false, [];
      firstPts, lastPts, samples := 0, 0, [];
      new;
      assert WallOk(0, 0) && Around(0, 0);
      NothingYet(0);
    }

    /** `adj_wall_and_start`. */
    method AdjWallAndStart(sample: Sample)
      requires media <= MAX_RECORDING_WALL_DURATION
      modifies this`wall, this`start, this`localStart
      ensures WallOk(wall, media) && (runOffset == 0 ==> wall == media)
      ensures localStart == Min(old(localStart), sample.localTime - media)
      ensures start == if runOffset == 0 then localStart else old(start)
      ensures wall == Min(media + Clamp(localStart - start, media / 2000), MAX_RECORDING_WALL_DURATION)
    {
      localStart := Min(localStart, sample.localTime - media);
      var limit := media / 2000;
      if runOffset == 0 {
        start := localStart;
      }
      wall := Min(media + Clamp(localStart - start, limit), MAX_RECORDING_WALL_DURATION);
    }

    /** `adj_media_duration`. */
    method AdjMediaDuration(sample: Sample, nextPts: i64) returns (duration: Result<nat>)
      requires media <= MAX_RECORDING_WALL_DURATION
      modifies this`media, this`wall, this`start, this`localStart
      ensures var d := WrappingSub(nextPts, sample.pts);
              duration == if 0 < d && old(media) + d <= MAX_RECORDING_WALL_DURATION then Ok(d) else Err
      ensures duration.Err? ==> media == old(media) && wall == old(wall) && start == old(start) && localStart == old(localStart)
      ensures duration.Ok? ==> media == old(media) + duration.value && WallOk(wall, media) && (runOffset == 0 ==> wall == media)
      ensures duration.Ok? ==>
                && localStart == Min(old(localStart), sample.localTime - media) && start == (if runOffset == 0 then localStart else old(start))
                && wall == Min(media + Clamp(localStart - start, media / 2000), 27_000_000)
    {
      var d := WrappingSub(nextPts, sample.pts);
      if d <= 0 {
        return Err;
      }
      if media + d > MAX_RECORDING_WALL_DURATION {
        return Err;
      }
      media := media + d;
      AdjWallAndStart(sample);
      return Ok(d);
    }

    /** `push`: the writer's times, already adjusted, go to the open recording or a new one. */
    method Push(duration: nat)
      modifies this`open, this`recs
      requires |recs| == runOffset + (if open then 1 else 0)
      requires open ==> recs[|recs| - 1].growing && recs[|recs| - 1].media + duration == media
      requires !open ==> duration == media
      ensures open && recs == PushedTo(old(recs), old(open), runOffset, start, localStart, wall, duration)
    {
      if !open {
        recs := recs + [Recording(runOffset, start, localStart - start, 0, 0, [], true)];
        open := true;
      }
      var last := |recs| - 1;
      var r := recs[last];
      assert r.media + duration == media;
      recs := recs[last := r.(media := r.media + duration, durations := r.durations + [duration], wall := wall,
                              start := start, localTimeDelta := localStart - start)];
      assert [] + [duration] == [duration];
      assert recs == PushedTo(old(recs), old(open), runOffset, start, localStart, wall, duration);
    }

    /** `close` of the open recording. The source's assertions on its times hold. */
    method CloseRecording()
      requires open && |recs| == runOffset + 1 && Mirrors(recs[|recs| - 1])
      modifies this`open, this`recs, this`runOffset, this`media, this`wall, this`start, this`localStart
      ensures !open && runOffset == old(runOffset) + 1 && media == 0 && wall == 0
      ensures start == old(start) + old(wall) && localStart == TIME_MAX
      ensures recs == old(recs)[|old(recs)| - 1 := old(recs)[|old(recs)| - 1].(growing := false)]
    {
      var r := recs[|recs| - 1];
      assert r.media == media && r.wall == wall && r.start == start && r.start + r.localTimeDelta == localStart;
      recs := recs[|recs| - 1 := r.(growing := false)];
      start := start + wall;
      localStart, wall, media := TIME_MAX, 0, 0;
      runOffset := runOffset + 1;
      open := false;
    }

    /** `push` with what it keeps. */
    method Store(ghost sample: Sample, duration: nat)
      requires Pushable(recs, open, runOffset, start, media, wall, duration) && Growing(recs, open) && AllFollow(recs, samples)
      requires Adjusted(recs, samples, open, runOffset, start, localStart, media, wall, sample, duration)
      modifies this`open, this`recs, this`samples
      ensures AllFollow(recs, samples) && AllSamples(samples) == AllSamples(old(samples)) + [sample]
      ensures open && |recs| == runOffset + 1 && Growing(recs, true) && Mirrors(recs[|recs| - 1])
      ensures RunOk(recs, duration == 0) && TotalMedia(recs) == TotalMedia(old(recs)) + duration
      ensures AllDurations(recs) == AllDurations(old(recs)) + [duration]
    {
      hide RunOk, AllFollow, Earliest, TotalMedia, AllDurations, AllSamples, Growing, WallOk;
      SampleLists(recs, samples);
      Pushes(recs, open, runOffset, start, localStart, media, wall, duration);
      PushesOne(recs, open, runOffset, start, localStart, media, wall, duration);
      LastOffset(recs);
      PushFollows(recs, samples, open, runOffset, start, localStart, media, wall, sample, duration);
      samples := SamplesTo(samples, open, sample);
      Push(duration);
    }

    /** `close` with what it keeps. */
    method EndRecording(lastOfRun: bool)
      requires open && |recs| == runOffset + 1 && Mirrors(recs[|recs| - 1]) && RunOk(recs, lastOfRun) && Growing(recs, true)
      requires AllFollow(recs, samples)
      modifies this`open, this`recs, this`runOffset, this`media, this`wall, this`start, this`localStart
      ensures !open && |recs| == runOffset == old(|recs|) && media == 0 && WallOk(wall, media) && RunOk(recs, lastOfRun)
      ensures Growing(recs, false) && TotalMedia(recs) == TotalMedia(old(recs)) && AllDurations(recs) == AllDurations(old(recs))
      ensures start == recs[|recs| - 1].start + recs[|recs| - 1].wall && localStart == TIME_MAX && AllFollow(recs, samples)
    {
      hide RunOk, TotalMedia, AllDurations, Growing, AllFollow;
      Closes(recs, lastOfRun);
      CloseFollows(recs, samples);
      CloseRecording();
    }

    /** The last sample of a run, without duration. */
    method StoreLast(sample: Sample)
      requires Standing(false)
      modifies this`open, this`recs, this`samples, this`runOffset, this`media, this`wall, this`start, this`localStart
      ensures Standing(true) && !open && |recs| == old(|recs| + (if open then 0 else 1))
      ensures TotalMedia(recs) == TotalMedia(old(recs))
      ensures AllDurations(recs) == AllDurations(old(recs)) + [0] && AllSamples(samples) == AllSamples(old(samples)) + [sample]
    {
      hide RunOk, WallOk, TotalMedia, AllDurations, Growing, AllFollow, Earliest, AllSamples;
      WallBounds(wall, media);
      ClockMore(recs, samples, open, localStart, media, sample, 0);
      AdjWallAndStart(sample);
      Store(sample, 0);
      EndRecording(true);
    }

    /** A sample with the duration that the next one's pts gives it. */
    method StoreNext(sample: Sample, nextPts: i64) returns (duration: Result<nat>)
      requires Standing(false)
      modifies this`open, this`recs, this`samples, this`media, this`wall, this`start, this`localStart
      ensures Standing(false)
      ensures var d := WrappingSub(nextPts, sample.pts);
              duration == if 0 < d && old(media) + d <= MAX_RECORDING_WALL_DURATION then Ok(d) else Err
      ensures duration.Err? ==> recs == old(recs) && samples == old(samples) && open == old(open)
      ensures duration.Ok? ==>
                && open && |recs| == old(|recs| + (if open then 0 else 1)) && TotalMedia(recs) == TotalMedia(old(recs)) + duration.value
                && AllDurations(recs) == AllDurations(old(recs)) + [duration.value] && AllSamples(samples) == AllSamples(old(samples)) + [sample]
    {
      hide RunOk, WallOk, WrappingSub, PushedTo, TotalMedia, AllDurations, Growing, AllFollow, Earliest, AllSamples;
      WallBounds(wall, media);
      ghost var was := media;
      forall d: nat ensures NextClock(recs, samples, open, localStart, was, sample, d) {
        ClockMore(recs, samples, open, localStart, was, sample, d);
      }
      duration := AdjMediaDuration(sample, nextPts);
      if duration.Ok? {
        assert NextClock(recs, samples, open, old(localStart), was, sample, duration.value);
        Store(sample, duration.value);
      }
    }

    /** `write`: it stores the previous sample, now that its duration is known, closing its recording
        if asked to. An unusable pts ends the run, with the previous sample's duration 0. */
    method Write(sample: Sample, closeNow: bool) returns (ok: bool)
      requires Valid() && !ended
      modifies this
      ensures Valid() && ended == !ok && (ok ==> unfinished == Some(sample))
      ensures old(unfinished.None?) ==> ok && recs == old(recs) && samples == old(samples)
      ensures old(unfinished.Some?) ==>
        var d := WrappingSub(sample.pts, old(unfinished.value.pts));
        && (ok <==> 0 < d && old(media) + d <= MAX_RECORDING_WALL_DURATION)
        && AllDurations(recs) == AllDurations(old(recs)) + [if ok then d else 0]
        && |recs| == |old(recs)| + (if old(open) then 0 else 1)
        && open == (ok && !closeNow)
        && AllSamples(samples) == AllSamples(old(samples)) + [old(unfinished.value)]
      ensures old(unfinished.None?) ==> firstPts == sample.pts
      ensures old(unfinished.Some?) ==> firstPts == old(firstPts)
      ensures lastPts == if ok then sample.pts else old(lastPts)
    {
      hide RunOk, WallOk, PtsOk, WrappingSub, PushedTo, TotalMedia, AllDurations, Growing, Starts, AllFollow, Earliest, AllSamples;
      WallBounds(wall, media);
      if unfinished.Some? {
        var previous := unfinished.value;
        unfinished := None;
        var duration := StoreNext(previous, sample.pts);
        if duration.Err? {
          StoreLast(previous);
          ended := true;
          return false;
        }
        PtsAdd(lastPts, firstPts, sample.pts, old(TotalMedia(recs)), duration.value);
        lastPts := sample.pts;
        if closeNow {
          EndRecording(false);
        }
      } else {
        firstPts, lastPts := sample.pts, sample.pts;
        NothingYet(sample.pts);
      }
      unfinished := Some(sample);
      return true;
    }

    /** `close`, or dropping the writer: the last sample has duration 0. */
    method Close()
      requires Valid() && !ended
      modifies this
      ensures Valid() && ended
      ensures AllDurations(recs) == AllDurations(old(recs)) + (if old(unfinished.Some?) then [0] else [])
      ensures AllSamples(samples) == AllSamples(old(samples)) + (if old(unfinished.Some?) then [old(unfinished.value)] else [])
      ensures firstPts == old(firstPts) && lastPts == old(lastPts)
    {
      hide RunOk, WallOk, PtsOk, PushedTo, TotalMedia, AllDurations, Growing, Starts, AllFollow, AllSamples;
      WallBounds(wall, media);
      ended := true;
      if unfinished.Some? {
        var previous := unfinished.value;
        unfinished := None;
        StoreLast(previous);
      } else {
        EndedAtOnce(recs);
      }
    }
  }

  /** The writer's local start with one more sample. */
  ghost predicate NextClock(recs: seq<Recording>, samples: seq<seq<Sample>>, open: bool, localStart: int, media: nat, s: Sample, d: nat)
  {
    && (open ==> recs != [] && |samples| == |recs|)
    && Earliest(Min(localStart, s.localTime - (media + d)), (if open then samples[|samples| - 1] else []) + [s],
             (if open then recs[|recs| - 1].durations else []) + [d])
  }

  lemma ClockMore(recs: seq<Recording>, samples: seq<seq<Sample>>, open: bool, localStart: int, media: nat, s: Sample, d: nat)
    requires AllFollow(recs, samples) && RunOk(recs, false)
    requires if open then recs != [] && recs[|recs| - 1].media == media && recs[|recs| - 1].start + recs[|recs| - 1].localTimeDelta == localStart
             else media == 0 && localStart == TIME_MAX
    ensures |samples| == |recs| && NextClock(recs, samples, open, localStart, media, s, d)
  {
    hide Earliest;
    if open {
      var n := |recs| - 1;
      assert FollowsClock(recs[n], samples[n]) && RecordingOk(recs[n], n, false);
      EarliestMore(localStart, samples[n], recs[n].durations, s, d);
    } else {
      EarliestMore(localStart, [], [], s, d);
    }
  }

  lemma LastOffset(recs: seq<Recording>)
    requires RunOk(recs, false)
    ensures recs != [] ==> recs[|recs| - 1].runOffset == |recs| - 1
  {
    assert recs != [] ==> RecordingOk(recs[|recs| - 1], |recs| - 1, false);
  }

  lemma SampleLists(recs: seq<Recording>, samples: seq<seq<Sample>>)
    requires AllFollow(recs, samples)
    ensures |samples| == |recs|
  {
  }

  lemma CloseFollows(recs: seq<Recording>, samples: seq<seq<Sample>>)
    requires AllFollow(recs, samples) && recs != []
    ensures AllFollow(recs[|recs| - 1 := recs[|recs| - 1].(growing := false)], samples)
  {
    hide Earliest;
    assert FollowsClock(recs[|recs| - 1], samples[|recs| - 1]);
  }

  lemma WallBounds(wall: int, media: int)
    requires WallOk(wall, media)
    ensures 0 <= media <= MAX_RECORDING_WALL_DURATION
  {
  }

  lemma NothingYet(pts: i64)
    ensures PtsOk(pts, pts, TotalMedia([]))
  {
    assert Around(0, 0);
  }

  lemma EndedAtOnce(recs: seq<Recording>)
    requires RunOk(recs, false)
    ensures RunOk(recs, true) && AllDurations(recs) + [] == AllDurations(recs)
  {
    forall i | 0 <= i < |recs| ensures RecordingOk(recs[i], i, i == |recs| - 1) {
      assert RecordingOk(recs[i], i, false);
    }
  }

  /** What pushing a sample does to the recordings. */
  function PushedTo(recs: seq<Recording>, open: bool, runOffset: nat, start: int, localStart: int, wall: int, duration: nat): seq<Recording>
    requires open ==> recs != []
  {
    if open then
      var r := recs[|recs| - 1];
      recs[|recs| - 1 := r.(media := r.media + duration, durations := r.durations + [duration], wall := wall, start := start,
                            localTimeDelta := localStart - start)]
    else recs + [Recording(runOffset, start, localStart - start, wall, duration, [duration], true)]
  }

  /** All samples' durations, in order. */
  function AllDurations(recs: seq<Recording>): seq<nat> {
    if recs == [] then [] else AllDurations(recs[..|recs| - 1]) + recs[|recs| - 1].durations
  }

  /** The media durations add up. */
  lemma {:induction false} MediaIsSum(recs: seq<Recording>, ended: bool)
    requires RunOk(recs, ended)
    ensures TotalMedia(recs) == Sum(AllDurations(recs))
    decreases |recs|
  {
    if recs != [] {
      PrefixOk(recs, ended);
      MediaIsSum(recs[..|recs| - 1], false);
      assert RecordingOk(recs[|recs| - 1], |recs| - 1, ended);
      SumJoin(AllDurations(recs[..|recs| - 1]), recs[|recs| - 1].durations);
    }
  }

  lemma {:induction false} SumJoin(a: seq<nat>, b: seq<nat>)
    ensures Sum(a + b) == Sum(a) + Sum(b)
    decreases |b|
  {
    if b == [] {
      assert a + b == a;
    } else {
      assert (a + b)[..|a + b| - 1] == a + b[..|b| - 1];
      SumJoin(a, b[..|b| - 1]);
    }
  }

  lemma PtsAdd(last: i64, first: i64, next: i64, total: int, d: int)
    requires PtsOk(last, first, total) && d == WrappingSub(next, last)
    ensures PtsOk(next, first, total + d)
  {
    var j :| Around(last - first - total, j);
    var k :| Around(next - last - d, k);
    assert Around(next - first - (total + d), j + k);
  }

  ghost predicate Pushable(recs: seq<Recording>, open: bool, runOffset: nat, start: int, media: int, wall: int, duration: nat) {
    && RunOk(recs, false) && |recs| == runOffset + (if open then 1 else 0)
    && WallOk(wall, media) && (runOffset == 0 ==> wall == media)
    && (open ==> recs[|recs| - 1].media + duration == media && (runOffset > 0 ==> recs[|recs| - 1].start == start))
    && (!open ==> media == duration && (recs != [] ==> start == recs[|recs| - 1].start + recs[|recs| - 1].wall))
  }

  /** Unless the pts wrapped around, the media durations of a run sum to the last pts not discarded minus
      the first. */
  lemma DurationsSpanPts(recs: seq<Recording>, ended: bool, last: i64, first: i64)
    requires RunOk(recs, ended) && PtsOk(last, first, TotalMedia(recs)) && TotalMedia(recs) < 0x1_0000_0000_0000_0000
    ensures Sum(AllDurations(recs)) == last - first <==> first <= last
  {
    MediaIsSum(recs, ended);
    var k :| Around(last - first - TotalMedia(recs), k);
    if first <= last {
      assert k == 0;
    }
  }

  /** Pushing a sample with the adjusted times keeps the run as it should be; a sample without duration
      only as its end. */
  lemma Pushes(recs: seq<Recording>, open: bool, runOffset: nat, start: int, localStart: int, media: int, wall: int, duration: nat)
    requires Pushable(recs, open, runOffset, start, media, wall, duration)
    ensures RunOk(PushedTo(recs, open, runOffset, start, localStart, wall, duration), duration == 0)
  {
    hide WallOk, TotalWall, TotalMedia, Sum;
    var after := PushedTo(recs, open, runOffset, start, localStart, wall, duration);
    var n := |after| - 1;
    forall i | 0 <= i < |after| ensures RecordingOk(after[i], i, duration == 0 && i == n) {
      if i < |recs| {
        assert RecordingOk(recs[i], i, false);
      }
      SumLast(if open then recs[n].durations else [], duration);
    }
    forall i | 0 < i < |after| ensures Starts(after, i) {
      if i < |recs| {
        assert Starts(recs, i);
      }
    }
  }

  lemma PushesOne(recs: seq<Recording>, open: bool, runOffset: nat, start: int, localStart: int, media: int, wall: int, duration: nat)
    requires |recs| == runOffset + (if open then 1 else 0) && Growing(recs, open)
    requires media == duration + if open then recs[|recs| - 1].media else 0
    ensures var after := PushedTo(recs, open, runOffset, start, localStart, wall, duration);
            && TotalMedia(after) == TotalMedia(recs) + duration && AllDurations(after) == AllDurations(recs) + [duration]
            && |after| == runOffset + 1 && Growing(after, true)
            && after[|after| - 1].media == media && after[|after| - 1].wall == wall && after[|after| - 1].start == start
            && after[|after| - 1].localTimeDelta == localStart - start
  {
    var after := PushedTo(recs, open, runOffset, start, localStart, wall, duration);
    var n := |after| - 1;
    if open {
      assert after[..n] == recs[..n];
      assert AllDurations(recs) + [duration] == AllDurations(recs[..n]) + (recs[n].durations + [duration]);
    } else {
      assert after[..n] == recs;
    }
  }

  lemma SumLast(durations: seq<nat>, d: nat)
    ensures Sum(durations + [d]) == Sum(durations) + d && Sum([]) == 0 && [] + [d] == [d]
  {
    assert (durations + [d])[..|durations|] == durations;
  }

  /** Closing changes only a flag. */
  lemma Closes(recs: seq<Recording>, ended: bool)
    requires RunOk(recs, ended) && recs != []
    ensures var after := recs[|recs| - 1 := recs[|recs| - 1].(growing := false)];
            && RunOk(after, ended) && TotalMedia(after) == TotalMedia(recs) && AllDurations(after) == AllDurations(recs)
            && (Growing(recs, true) ==> Growing(after, false))
  {
    var n := |recs| - 1;
    var after := recs[n := recs[n].(growing := false)];
    assert after[..n] == recs[..n];
    forall i | 0 <= i < |after| ensures RecordingOk(after[i], i, ended && i == n) {
      assert RecordingOk(recs[i], i, ended && i == n);
    }
    forall i | 0 < i < |after| ensures Starts(after, i) {
      assert Starts(recs, i);
    }
  }
}
