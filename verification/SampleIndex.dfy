/** The sample index of a recording (server/db/recording.rs:50-187): per frame a duration and a size,
    each as the zigzag varint of a difference. */
module SampleIndex {
  import opened Base
  import opened Coding

  datatype Frame = Frame(duration: nat, bytes: nat, isKey: bool)

  /** `SampleIndexIterator`: the current frame and where the next one's bytes start. */
  datatype It = It(i: nat, isKey: bool, pos: nat, start: nat, duration: nat, bytes: nat, bytesOther: nat)

  /** The `Default` iterator: before the first frame. */
  function Start(): It {
    It(0, false, 0, 0, 0, 0, 0)
  }

  datatype Step = More(it: It) | End(it: It) | Bad

  /** `checked_add_signed(..).unwrap_or(0)` on 32 bits. */
  function AddSigned(prev: nat, delta: int): nat {
    if 0 <= prev + delta < 0x1_0000_0000 then prev + delta else 0
  }

  /** A sum; the case of nothing to add keeps the solver from rewriting sums of zeros forever. */
  function Plus(a: nat, b: nat): nat {
    if a == 0 then b else if b == 0 then a else a + b
  }

  /** The place after the current frame. */
  function PastFrame(it: It): It {
    it.(pos := Plus(it.pos, it.bytes), start := Plus(it.start, it.duration))
  }

  /** The frame whose two raw varints are given. */
  function NextFrame(it: It, raw1: u32, raw2: u32, end: nat, last: bool): Step {
    var duration := it.duration + Unzigzag32(raw1 / 2);
    var isKey := raw1 % 2 == 1;
    var prevKey := if it.isKey then it.bytes else it.bytesOther;
    var prevNonkey := if it.isKey then it.bytesOther else it.bytes;
    var bytes := AddSigned(if isKey then prevKey else prevNonkey, Unzigzag32(raw2));
    if duration < 0 || duration >= 0x8000_0000 || (duration == 0 && !last) || bytes == 0 then Bad
    else More(It(end, isKey, it.pos, it.start, duration, bytes, if isKey then prevNonkey else prevKey))
  }

  /** What `next` makes of an iterator. A position or time that leaves 32 bits is `Bad` like the
      source's own errors. */
  function Advance(it: It, data: Bytes): (r: Step)
    requires it.i <= |data|
    ensures r.More? ==> it.i < r.it.i <= |data|
  {
    var past := PastFrame(it);
    if past.pos >= 0x1_0000_0000 || past.start >= 0x8000_0000 then Bad
    else if it.i == |data| then End(past)
    else
      match Decode(data, it.i)
      case None => Bad
      case Some((raw1, i1)) =>
        match Decode(data, i1)
        case None => Bad
        case Some((raw2, i2)) => NextFrame(past, raw1, raw2, i2, i2 == |data|)
  }

  /** `SampleIndexIterator::next`. */
  method Next(it: It, data: Bytes) returns (r: Result<bool>, it1: It)
    requires it.i <= |data|
    ensures match Advance(it, data)
            case Bad => r == Err
            case End(e) => r == Ok(false) && it1 == e
            case More(n) => r == Ok(true) && it1 == n
  {
    it1 := it.(pos := it.pos + it.bytes, start := it.start + it.duration);
    if it1.pos >= 0x1_0000_0000 || it1.start >= 0x8000_0000 {
      return Err, it1;
    }
    if it.i == |data| {
      return Ok(false), it1;
    }
    var d1 := DecodeVarint32(data, it.i);
    if d1.None? {
      return Err, it1;
    }
    var d2 := DecodeVarint32(data, d1.value.1);
    if d2.None? {
      return Err, it1;
    }
    var raw1: u32, raw2: u32, i2 := d1.value.0, d2.value.0, d2.value.1;
    var duration := it1.duration + Unzigzag32(raw1 / 2);
    if duration < 0 || duration >= 0x8000_0000 || (duration == 0 && |data| > i2) {
      return Err, it1;
    }
    var prevKey, prevNonkey := it1.bytesOther, it1.bytes;
    if it1.isKey {
      prevKey, prevNonkey := it1.bytes, it1.bytesOther;
    }
    var bytes: nat, other: nat;
    if raw1 % 2 == 1 {
      bytes, other := AddSigned(prevKey, Unzigzag32(raw2)), prevNonkey;
    } else {
      bytes, other := AddSigned(prevNonkey, Unzigzag32(raw2)), prevKey;
    }
    if bytes == 0 {
      return Err, it1;
    }
    it1 := It(i2, raw1 % 2 == 1, it1.pos, it1.start, duration, bytes, other);
    return Ok(true), it1;
  }

  /** All frames an iterator still finds. */
  function Walk(it: It, data: Bytes): Result<seq<It>>
    requires it.i <= |data|
    decreases |data| - it.i
  {
    match Advance(it, data)
    case Bad => Err
    case End(_) => Ok([])
    case More(n) =>
      match Walk(n, data)
      case Err => Err
      case Ok(rest) => Ok([n] + rest)
  }

  // -- encoding ----------------------------------------------------------------------------

  /** Totals of the first k frames. */
  function SumBytes(fs: seq<Frame>, k: nat): nat
    requires k <= |fs|
  {
    if k == 0 then 0 else SumBytes(fs, k - 1) + fs[k - 1].bytes
  }

  function SumDuration(fs: seq<Frame>, k: nat): nat
    requires k <= |fs|
  {
    if k == 0 then 0 else SumDuration(fs, k - 1) + fs[k - 1].duration
  }

  function CountKeys(fs: seq<Frame>, k: nat): nat
    requires k <= |fs|
  {
    if k == 0 then 0 else CountKeys(fs, k - 1) + if fs[k - 1].isKey then 1 else 0
  }

  /** The size of the last frame of one type among the first k. */
  function LastBytes(fs: seq<Frame>, k: nat, isKey: bool): (n: nat)
    requires k <= |fs|
    ensures Small(fs) ==> n < 0x8000_0000
  {
    if k == 0 then 0 else if fs[k - 1].isKey == isKey then fs[k - 1].bytes else LastBytes(fs, k - 1, isKey)
  }

  function LastDuration(fs: seq<Frame>, k: nat): nat
    requires k <= |fs|
  {
    if k == 0 then 0 else fs[k - 1].duration
  }

  /** Sizes are `i32`s and durations leave room for the flag bit. */
  ghost predicate Small(fs: seq<Frame>) {
    forall k | 0 <= k < |fs| :: fs[k].bytes < 0x8000_0000 && fs[k].duration < 0x4000_0000
  }

  /** Frames as the index can hold them: sizes are positive, only the last duration may be zero, and
      the totals fit the recording's counters. */
  ghost predicate Encodable(fs: seq<Frame>) {
    && Small(fs)
    && (forall k | 0 <= k < |fs| :: fs[k].bytes > 0)
    && (forall k | 0 <= k < |fs| - 1 :: fs[k].duration > 0)
    && SumBytes(fs, |fs|) < 0x1_0000_0000 && SumDuration(fs, |fs|) < 0x8000_0000
  }

  /** The zigzag of a duration difference, shifted left past the key flag on 32 bits. */
  function Raw1(durationDelta: i32, isKey: bool): u32 {
    (Zigzag32(durationDelta) * 2 + if isKey then 1 else 0) % 0x1_0000_0000
  }

  /** The two varints of a frame. */
  function EncodeOne(durationDelta: i32, bytesDelta: i32, isKey: bool): Bytes {
    Varint(Raw1(durationDelta, isKey)) + Varint(Zigzag32(bytesDelta))
  }

  /** The two varints of frame k. */
  function EncodeFrame(fs: seq<Frame>, k: nat): Bytes
    requires Small(fs) && k < |fs|
  {
    EncodeOne(fs[k].duration - LastDuration(fs, k), fs[k].bytes - LastBytes(fs, k, fs[k].isKey), fs[k].isKey)
  }

  /** The index of the first k frames. */
  function Encode(fs: seq<Frame>, k: nat): Bytes
    requires Small(fs) && k <= |fs|
  {
    if k == 0 then [] else Encode(fs, k - 1) + EncodeFrame(fs, k - 1)
  }

  /** A later frame changes nothing before it. */
  lemma {:induction false} Prefix(fs: seq<Frame>, f: Frame, k: nat)
    requires k <= |fs|
    ensures SumBytes(fs + [f], k) == SumBytes(fs, k) && SumDuration(fs + [f], k) == SumDuration(fs, k)
    ensures CountKeys(fs + [f], k) == CountKeys(fs, k) && LastDuration(fs + [f], k) == LastDuration(fs, k)
    ensures forall b :: LastBytes(fs + [f], k, b) == LastBytes(fs, k, b)
    ensures Small(fs + [f]) ==> Small(fs) && Encode(fs + [f], k) == Encode(fs, k)
  {
    assert Small(fs + [f]) ==> Small(fs) by {
      assert forall j | 0 <= j < |fs| :: fs[j] == (fs + [f])[j];
    }
    if k > 0 {
      Prefix(fs, f, k - 1);
      assert (fs + [f])[k - 1] == fs[k - 1];
    }
  }

  /** What one frame more adds. */
  lemma AppendFrame(fs: seq<Frame>, f: Frame)
    requires Small(fs + [f])
    ensures Small(fs)
    ensures var all, n := fs + [f], |fs|;
            && |all| == n + 1
            && SumBytes(all, n + 1) == SumBytes(fs, n) + f.bytes
            && SumDuration(all, n + 1) == SumDuration(fs, n) + f.duration
            && CountKeys(all, n + 1) == CountKeys(fs, n) + (if f.isKey then 1 else 0)
            && LastDuration(all, n + 1) == f.duration
            && LastBytes(all, n + 1, f.isKey) == f.bytes && LastBytes(all, n + 1, !f.isKey) == LastBytes(fs, n, !f.isKey)
            && Encode(all, n + 1) == Encode(fs, n) + EncodeOne(f.duration - LastDuration(fs, n), f.bytes - LastBytes(fs, n, f.isKey), f.isKey)
  {
    Prefix(fs, f, |fs|);
    assert (fs + [f])[|fs|] == f;
  }

  /** An encoding and what the next frame is a difference from. */
  ghost predicate Stands(fs: seq<Frame>, index: Bytes, duration: int, key: int, nonkey: int) {
    && Small(fs) && Encode(fs, |fs|) == index && LastDuration(fs, |fs|) == duration
    && LastBytes(fs, |fs|, true) == key && LastBytes(fs, |fs|, false) == nonkey
  }

  lemma StandsNext(fs: seq<Frame>, index: Bytes, duration: int, key: int, nonkey: int, f: Frame)
    requires Stands(fs, index, duration, key, nonkey) && Small(fs + [f])
    requires f.bytes < 0x8000_0000 && f.duration < 0x4000_0000
    requires 0 <= duration < 0x8000_0000 && 0 <= key < 0x8000_0000 && 0 <= nonkey < 0x8000_0000
    ensures var d, b := f.duration - duration, f.bytes - (if f.isKey then key else nonkey);
            Stands(fs + [f], index + EncodeOne(d, b, f.isKey), f.duration, if f.isKey then f.bytes else key, if f.isKey then nonkey else f.bytes)
  {
    hide Encode, EncodeOne, Small, LastBytes;
    AppendFrame(fs, f);
  }

  /** A frame whose two varints are a byte each. */
  lemma TwoBytes(d: i32, b: i32, isKey: bool, x: byte, y: byte)
    requires x as int == 2 * (if d >= 0 then 2 * d else -2 * d - 1) + (if isKey then 1 else 0) < 0x80
    requires y as int == (if b >= 0 then 2 * b else -2 * b - 1) < 0x80
    ensures EncodeOne(d, b, isKey) == [x, y]
  {
    ZigzagInverse(d, 0);
    ZigzagInverse(b, 0);
    hide Zigzag32;
    assert Varint(x as int) == [x] && Varint(y as int) == [y];
  }

  lemma FirstExample()
    ensures EncodeOne(10, 1000, true) == [0x29, 0xd0, 0x0f]
  {
    ZigzagInverse(10, 0);
    ZigzagInverse(1000, 0);
    hide Zigzag32;
    assert Varint(41) == [0x29] && Varint(15) == [0x0f];
    assert Varint(2000) == [0xd0] + Varint(15);
  }

  lemma StandsAtFirst()
    ensures Stands([], [], 0, 0, 0)
  {
  }

  /** The example of design/schema.md: five frames, two of them key frames. */
  lemma EncodedExample()
    ensures var fs := [Frame(10, 1000, true), Frame(9, 10, false), Frame(11, 15, false), Frame(10, 12, false), Frame(10, 1050, true)];
            Small(fs) && Encode(fs, |fs|) == [0x29, 0xd0, 0x0f, 0x02, 0x14, 0x08, 0x0a, 0x02, 0x05, 0x01, 0x64]
  {
    hide EncodeOne, Stands, Encode;
    var f4, f5 := Frame(10, 12, false), Frame(10, 1050, true);
    var start, three := [Frame(10, 1000, true), Frame(9, 10, false), Frame(11, 15, false)], [0x29, 0xd0, 0x0f, 0x02, 0x14, 0x08, 0x0a];
    ExampleStart();
    TwoBytes(-1, -3, false, 0x02, 0x05);
    TwoBytes(0, 50, true, 0x01, 0x64);
    StandsNext(start, three, 11, 1000, 15, f4);
    StandsNext(start + [f4], three + [0x02, 0x05], 10, 1000, 12, f5);
    StandsIs(start + [f4] + [f5], three + [0x02, 0x05] + [0x01, 0x64], 10, 1050, 12);
    assert start + [f4] + [f5] == [Frame(10, 1000, true), Frame(9, 10, false), Frame(11, 15, false), f4, f5];
  }

  lemma ExampleStart()
    ensures Stands([Frame(10, 1000, true), Frame(9, 10, false), Frame(11, 15, false)],
                   [0x29, 0xd0, 0x0f, 0x02, 0x14, 0x08, 0x0a], 11, 1000, 15)
  {
    hide EncodeOne, Stands, Encode;
    FirstExample();
    TwoBytes(-1, 10, false, 0x02, 0x14);
    TwoBytes(2, 5, false, 0x08, 0x0a);
    StandsAtFirst();
    var f1, f2, f3 := Frame(10, 1000, true), Frame(9, 10, false), Frame(11, 15, false);
    StandsNext([], [], 0, 0, 0, f1);
    assert [] + [f1] == [f1] && [] + EncodeOne(10, 1000, true) == [0x29, 0xd0, 0x0f];
    StandsNext([f1], [0x29, 0xd0, 0x0f], 10, 1000, 0, f2);
    assert [f1] + [f2] == [f1, f2] && [0x29, 0xd0, 0x0f] + [0x02, 0x14] == [0x29, 0xd0, 0x0f, 0x02, 0x14];
    StandsNext([f1, f2], [0x29, 0xd0, 0x0f, 0x02, 0x14], 9, 1000, 10, f3);
    assert [f1, f2] + [f3] == [f1, f2, f3] && [0x29, 0xd0, 0x0f, 0x02, 0x14] + [0x08, 0x0a] == [0x29, 0xd0, 0x0f, 0x02, 0x14, 0x08, 0x0a];
  }

  lemma StandsIs(fs: seq<Frame>, index: Bytes, duration: int, key: int, nonkey: int)
    requires Stands(fs, index, duration, key, nonkey)
    ensures Small(fs) && Encode(fs, |fs|) == index
  {
  }

  lemma SmallMore(fs: seq<Frame>, f: Frame)
    requires Small(fs) && f.bytes < 0x8000_0000 && f.duration < 0x4000_0000
    ensures Small(fs + [f])
  {
  }

  /** The counters of a recording being written. */
  class RecentRecording {
    var mediaDuration: nat
    var sampleFileBytes: nat
    var videoSamples: nat
    var videoSyncSamples: nat
    var videoIndex: Bytes

    constructor ()
      ensures Describes([])
    {
      mediaDuration, sampleFileBytes, videoSamples, videoSyncSamples, videoIndex := 0, 0, 0, 0, [];
    }

    /** The recording describes the given frames. */
    ghost predicate Describes(fs: seq<Frame>)
      reads this
    {
      && Small(fs) && videoIndex == Encode(fs, |fs|)
      && mediaDuration == SumDuration(fs, |fs|) && sampleFileBytes == SumBytes(fs, |fs|)
      && videoSamples == |fs| && videoSyncSamples == CountKeys(fs, |fs|)
    }

    /** Counts one frame and appends its differences from the frames before. */
    method Add(duration: nat, bytes: nat, isKey: bool, durationDelta: i32, bytesDelta: i32, ghost fs: seq<Frame>)
      requires Describes(fs) && bytes < 0x8000_0000 && duration < 0x4000_0000
      requires durationDelta == duration - LastDuration(fs, |fs|) && bytesDelta == bytes - LastBytes(fs, |fs|, isKey)
      modifies this
      ensures Describes(fs + [Frame(duration, bytes, isKey)])
    {
      SmallMore(fs, Frame(duration, bytes, isKey));
      hide Small, Encode, SumBytes, SumDuration, CountKeys, LastBytes, LastDuration, EncodeOne;
      AppendFrame(fs, Frame(duration, bytes, isKey));
      mediaDuration := mediaDuration + duration;
      sampleFileBytes := sampleFileBytes + bytes;
      videoSamples := videoSamples + 1;
      videoSyncSamples := videoSyncSamples + if isKey then 1 else 0;
      videoIndex := AppendOne(durationDelta, bytesDelta, isKey, videoIndex);
    }
  }

  /** `SampleIndexEncoder`. */
  class Encoder {
    var prevDuration: nat
    var prevBytesKey: nat
    var prevBytesNonkey: nat

    /** The encoder has seen the given frames. */
    ghost predicate Saw(fs: seq<Frame>)
      reads this
    {
      && prevDuration == LastDuration(fs, |fs|)
      && prevBytesKey == LastBytes(fs, |fs|, true) && prevBytesNonkey == LastBytes(fs, |fs|, false)
    }

    constructor ()
      ensures Saw([])
    {
      prevDuration, prevBytesKey, prevBytesNonkey := 0, 0, 0;
    }

    /** `add_sample`. */
    method AddSample(duration: nat, bytes: nat, isKey: bool, r: RecentRecording, ghost fs: seq<Frame>)
      requires Saw(fs) && r.Describes(fs)
      requires bytes < 0x8000_0000 && duration < 0x4000_0000
      modifies this, r
      ensures Saw(fs + [Frame(duration, bytes, isKey)]) && r.Describes(fs + [Frame(duration, bytes, isKey)])
    {
      AppendFrame(fs, Frame(duration, bytes, isKey));
      hide Encode, SumBytes, SumDuration, CountKeys, LastBytes, EncodeOne;
      var durationDelta := duration - prevDuration;
      var bytesDelta := bytes - if isKey then prevBytesKey else prevBytesNonkey;
      prevDuration := duration;
      if isKey {
        prevBytesKey := bytes;
      } else {
        prevBytesNonkey := bytes;
      }
      r.Add(duration, bytes, isKey, durationDelta, bytesDelta, fs);
    }
  }

  /** The two varints `add_sample` appends. */
  method AppendOne(durationDelta: i32, bytesDelta: i32, isKey: bool, index: Bytes) returns (r: Bytes)
    ensures r == index + EncodeOne(durationDelta, bytesDelta, isKey)
  {
    r := AppendVarint32(Raw1(durationDelta, isKey), index);
    r := AppendVarint32(Zigzag32(bytesDelta), r);
  }

  // -- the round trip ----------------------------------------------------------------------

  /** The iterator after k calls of `next`: at frame k - 1, with prefix sums. */
  function ItAt(fs: seq<Frame>, k: nat): It
    requires Small(fs) && k <= |fs|
  {
    if k == 0 then Start()
    else
      var f := fs[k - 1];
      It(|Encode(fs, k)|, f.isKey, SumBytes(fs, k - 1), SumDuration(fs, k - 1), f.duration, f.bytes, LastBytes(fs, k - 1, !f.isKey))
  }

  lemma {:induction false} EncodeAt(fs: seq<Frame>, k: nat, n: nat)
    requires Small(fs) && k < n <= |fs|
    ensures At(Encode(fs, n), |Encode(fs, k)|, EncodeFrame(fs, k))
    decreases n
  {
    if k < n - 1 {
      EncodeAt(fs, k, n - 1);
      AtPrefix(Encode(fs, n - 1), EncodeFrame(fs, n - 1), |Encode(fs, k)|, EncodeFrame(fs, k));
    }
  }

  lemma AtPrefix(data: Bytes, more: Bytes, i: int, piece: Bytes)
    requires At(data, i, piece)
    ensures At(data + more, i, piece)
  {
    assert (data + more)[i..i + |piece|] == data[i..i + |piece|];
  }

  lemma {:induction false} SumsGrow(fs: seq<Frame>, k: nat, n: nat)
    requires k <= n <= |fs|
    ensures SumBytes(fs, k) <= SumBytes(fs, n) && SumDuration(fs, k) <= SumDuration(fs, n)
    decreases n
  {
    if k < n {
      SumsGrow(fs, k, n - 1);
    }
  }

  /** The raw values of a frame lead back to it. */
  lemma NextFrameBack(past: It, f: Frame, raw1: u32, raw2: u32, end: nat, last: bool)
    requires 0 < f.bytes < 0x8000_0000 && f.duration < 0x4000_0000 && past.duration < 0x4000_0000
    requires past.bytes < 0x8000_0000 && past.bytesOther < 0x8000_0000 && (f.duration == 0 ==> last)
    requires raw1 == Raw1(f.duration - past.duration, f.isKey)
    requires raw2 == Zigzag32(f.bytes - if f.isKey == past.isKey then past.bytes else past.bytesOther)
    ensures NextFrame(past, raw1, raw2, end, last) ==
              More(It(end, f.isKey, past.pos, past.start, f.duration, f.bytes, if f.isKey == past.isKey then past.bytesOther else past.bytes))
  {
    ZigzagInverse(f.duration - past.duration, 0);
    ZigzagInverse(f.bytes - if f.isKey == past.isKey then past.bytes else past.bytesOther, 0);
    assert raw1 / 2 == Zigzag32(f.duration - past.duration);
  }

  lemma DecodeOne(data: Bytes, i: nat, durationDelta: i32, bytesDelta: i32, isKey: bool)
    requires At(data, i, EncodeOne(durationDelta, bytesDelta, isKey))
    ensures i < |data| && Decode(data, i).Some? && Decode(data, i).value.0 == Raw1(durationDelta, isKey)
    ensures Decode(data, Decode(data, i).value.1) == Some((Zigzag32(bytesDelta), i + |EncodeOne(durationDelta, bytesDelta, isKey)|))
  {
    var raw1, raw2 := Raw1(durationDelta, isKey), Zigzag32(bytesDelta);
    AtSplit(data, i, Varint(raw1), Varint(raw2));
    VarintRoundTrip(data, i, raw1);
    VarintRoundTrip(data, i + |Varint(raw1)|, raw2);
  }

  lemma PastStart()
    ensures PastFrame(Start()) == Start()
  {
  }

  /** The place after the first k frames: their totals. */
  function PastAll(fs: seq<Frame>, k: nat): It
    requires Small(fs) && k <= |fs|
  {
    var isKey := k > 0 && fs[k - 1].isKey;
    It(|Encode(fs, k)|, isKey, SumBytes(fs, k), SumDuration(fs, k), LastDuration(fs, k), LastBytes(fs, k, isKey), LastBytes(fs, k, !isKey))
  }

  lemma PastAt(fs: seq<Frame>, k: nat)
    requires Small(fs) && k <= |fs|
    ensures PastFrame(ItAt(fs, k)) == PastAll(fs, k)
  {
    if k == 0 {
      hide PastFrame;
      PastStart();
      assert ItAt(fs, k) == Start();
      assert PastAll(fs, k) == Start();
    }
  }

  /** The iterator after one frame more. */
  lemma ItNext(fs: seq<Frame>, k: nat)
    requires Small(fs) && k < |fs|
    ensures var f := fs[k];
            ItAt(fs, k + 1) == It(|Encode(fs, k)| + |EncodeFrame(fs, k)|, f.isKey, SumBytes(fs, k), SumDuration(fs, k),
                                  f.duration, f.bytes, LastBytes(fs, k, !f.isKey))
  {
  }

  lemma AdvanceAt(fs: seq<Frame>, k: nat)
    requires Encodable(fs) && k < |fs| && ItAt(fs, k).i <= |Encode(fs, |fs|)|
    ensures Advance(ItAt(fs, k), Encode(fs, |fs|)) == More(ItAt(fs, k + 1))
  {
    hide Decode, NextFrame, EncodeOne, Encode, ItAt, PastFrame, Start, LastBytes, LastDuration, SumBytes, SumDuration;
    PastAt(fs, k);
    PastIndex(ItAt(fs, k));
    EncodeAt(fs, k, |fs|);
    SumsGrow(fs, k, |fs|);
    ItNext(fs, k);
    LastSmall(fs, k);
    var data, past, f := Encode(fs, |fs|), PastAll(fs, k), fs[k];
    var durationDelta, bytesDelta := f.duration - LastDuration(fs, k), f.bytes - LastBytes(fs, k, f.isKey);
    DecodeOne(data, past.i, durationDelta, bytesDelta, f.isKey);
    var end := past.i + |EncodeFrame(fs, k)|;
    OnlyLastEnds(fs, k);
    NextFrameBack(past, f, Raw1(durationDelta, f.isKey), Zigzag32(bytesDelta), end, end == |data|);
  }

  lemma PastIndex(it: It)
    ensures PastFrame(it).i == it.i
  {
  }

  lemma LastSmall(fs: seq<Frame>, k: nat)
    requires Small(fs) && k <= |fs|
    ensures LastDuration(fs, k) < 0x4000_0000
  {
  }

  lemma OnlyLastEnds(fs: seq<Frame>, k: nat)
    requires Small(fs) && k < |fs|
    ensures k == |fs| - 1 ==> |Encode(fs, k)| + |EncodeFrame(fs, k)| == |Encode(fs, |fs|)|
  {
  }

  lemma AdvanceEnd(fs: seq<Frame>)
    requires Encodable(fs)
    ensures ItAt(fs, |fs|).i == |Encode(fs, |fs|)|
    ensures Advance(ItAt(fs, |fs|), Encode(fs, |fs|)) == End(PastAll(fs, |fs|))
  {
    hide ItAt, PastFrame, Start, SumBytes, SumDuration, Encode, LastBytes, LastDuration;
    PastAt(fs, |fs|);
    PastIndex(ItAt(fs, |fs|));
  }

  function ItsFrom(fs: seq<Frame>, k: nat): seq<It>
    requires Small(fs) && k <= |fs|
    decreases |fs| - k
  {
    if k == |fs| then [] else [ItAt(fs, k + 1)] + ItsFrom(fs, k + 1)
  }

  lemma {:induction false} WalkFrom(fs: seq<Frame>, k: nat)
    requires Encodable(fs) && k <= |fs|
    ensures ItAt(fs, k).i <= |Encode(fs, |fs|)|
    ensures Walk(ItAt(fs, k), Encode(fs, |fs|)) == Ok(ItsFrom(fs, k))
    decreases |fs| - k
  {
    hide ItAt, PastFrame, Start, SumBytes, SumDuration, Encode, Advance, LastBytes, LastDuration;
    if k < |fs| {
      EncodeAt(fs, k, |fs|);
      PastAt(fs, k);
      PastIndex(ItAt(fs, k));
      WalkFrom(fs, k + 1);
      AdvanceAt(fs, k);
    } else {
      AdvanceEnd(fs);
    }
  }

  lemma {:induction false} ItsFromAt(fs: seq<Frame>, k: nat, j: nat)
    requires Small(fs) && k <= j <= |fs|
    ensures |ItsFrom(fs, k)| == |fs| - k
    ensures j < |fs| ==> ItsFrom(fs, k)[j - k] == ItAt(fs, j + 1)
    decreases |fs| - k
  {
    hide ItAt;
    if k < |fs| {
      ItsFromAt(fs, k + 1, if k < j then j else k + 1);
    }
  }

  /** An iterator stands at frame k. */
  ghost predicate Shows(it: It, fs: seq<Frame>, k: nat)
    requires k < |fs|
  {
    && it.isKey == fs[k].isKey && it.duration == fs[k].duration && it.bytes == fs[k].bytes
    && it.pos == SumBytes(fs, k) && it.start == SumDuration(fs, k)
  }

  /** Encoding any frames and iterating gives back the frames with prefix-sum positions and times,
      then the end. */
  lemma RoundTrip(fs: seq<Frame>)
    requires Encodable(fs)
    ensures var its := Walk(Start(), Encode(fs, |fs|));
            its.Ok? && |its.value| == |fs| && forall k | 0 <= k < |fs| :: Shows(its.value[k], fs, k)
  {
    hide ItsFrom, Walk, Encode, SumBytes, SumDuration, Start, LastBytes;
    assert ItAt(fs, 0) == Start();
    WalkFrom(fs, 0);
    ItsFromAt(fs, 0, 0);
    forall k | 0 <= k < |fs|
      ensures Shows(ItsFrom(fs, 0)[k], fs, k)
    {
      ItsFromAt(fs, 0, k);
    }
  }
}
