/** What a player reads from the boxes of a .mp4 (ISO/IEC 14496-12 sections 8.6 to 8.8): where each
    sample is, how long it is shown, which samples are sync samples, and what an edit list plays. Every
    function here looks at parsed boxes only. */
module Mp4Reader {
  import opened Base
  import opened BigEndian
  import opened BoxTree
  import opened Mp4Boxes
  import opened TrackRuns
  import EditList

  // -- finding boxes -----------------------------------------------------------------------

  /** The first box of a type. */
  function Child(ts: seq<Tree>, kind: Kind): Option<Tree> {
    if ts == [] then None else if ts[0].kind == kind then Some(ts[0]) else Child(ts[1..], kind)
  }

  function Inside(ts: seq<Tree>, kind: Kind): seq<Tree> {
    match Child(ts, kind)
    case Some(Node(_, kids)) => kids
    case _ => []
  }

  function BodyOf(ts: seq<Tree>, kind: Kind): Bytes {
    match Child(ts, kind)
    case Some(Leaf(_, body)) => body
    case _ => []
  }

  function Trak(file: seq<Tree>): seq<Tree> {
    Inside(Inside(file, MOOV), TRAK)
  }

  function Stbl(file: seq<Tree>): seq<Tree> {
    Inside(Inside(Inside(Trak(file), MDIA), MINF), STBL)
  }

  lemma {:induction false} ChildIs(ts: seq<Tree>, i: nat, kind: Kind)
    requires i < |ts| && ts[i].kind == kind && forall j | 0 <= j < i :: ts[j].kind != kind
    ensures Child(ts, kind) == Some(ts[i])
    ensures ts[i].Node? ==> Inside(ts, kind) == ts[i].kids
    ensures ts[i].Leaf? ==> BodyOf(ts, kind) == ts[i].body
    decreases i
  {
    if i > 0 {
      forall j | 0 <= j < i - 1 ensures ts[1..][j].kind != kind {
        assert ts[1..][j] == ts[j + 1];
      }
      ChildIs(ts[1..], i - 1, kind);
    }
  }

  lemma {:induction false} NoChild(ts: seq<Tree>, kind: Kind)
    requires forall j | 0 <= j < |ts| :: ts[j].kind != kind
    ensures Child(ts, kind) == None
  {
    if ts != [] {
      forall j | 0 <= j < |ts[1..]| ensures ts[1..][j].kind != kind {
        assert ts[1..][j] == ts[j + 1];
      }
      NoChild(ts[1..], kind);
    }
  }

  // -- fields ------------------------------------------------------------------------------

  function Word(data: Bytes, i: nat): nat {
    if i + 4 <= |data| then Read32(data, i) else 0
  }

  function Long(data: Bytes, i: nat): nat {
    if i + 8 <= |data| then Read64(data, i) else 0
  }

  lemma WordAt(data: Bytes, i: nat, x: nat)
    requires x < 0x1_0000_0000 && At(data, i, U32(x))
    ensures Word(data, i) == x
  {
    hide U32, Read32;
    Back32(data, i, x);
  }

  lemma LongAt(data: Bytes, i: nat, x: nat)
    requires x < 0x1_0000_0000_0000_0000 && At(data, i, U64(x))
    ensures Long(data, i) == x
  {
    hide U64, Read64;
    Back64(data, i, x);
  }

  /** Reading behind a header. */
  lemma WordBehind(front: Bytes, table: Bytes, i: nat)
    ensures Word(front + table, |front| + i) == Word(table, i)
  {
    var data := front + table;
    if i + 4 <= |table| {
      assert data[|front| + i] == table[i] && data[|front| + i + 1] == table[i + 1];
      assert data[|front| + i + 2] == table[i + 2] && data[|front| + i + 3] == table[i + 3];
    }
  }

  lemma LongBehind(front: Bytes, table: Bytes, i: nat)
    ensures Long(front + table, |front| + i) == Long(table, i)
  {
    hide Read32;
    WordBehind(front, table, i);
    WordBehind(front, table, i + 4);
  }

  // -- stsc: chunks ------------------------------------------------------------------------

  /** Chunks are numbered from 1. The last of the first e entries that starts at or before chunk c. */
  function ChunkEntry(stsc: Bytes, c: nat, e: nat): nat {
    if e == 0 then 0 else if Word(stsc, 8 + 12 * (e - 1)) <= c then e - 1 else ChunkEntry(stsc, c, e - 1)
  }

  function EntryOf(stsc: Bytes, c: nat): nat {
    ChunkEntry(stsc, c, Word(stsc, 4))
  }

  function SamplesIn(stsc: Bytes, c: nat): nat {
    Word(stsc, 12 + 12 * EntryOf(stsc, c))
  }

  /** How many samples come before chunk c. */
  function SamplesBefore(stsc: Bytes, c: nat): nat {
    if c <= 1 then 0 else SamplesBefore(stsc, c - 1) + SamplesIn(stsc, c - 1)
  }

  /** The chunk of sample n, looking from chunk c on. */
  function FindChunk(stsc: Bytes, chunks: nat, n: nat, c: nat): (r: Option<nat>)
    ensures r.Some? ==> c <= r.value <= chunks && SamplesBefore(stsc, r.value) <= n
    decreases chunks + 1 - c
  {
    if c > chunks then None
    else if SamplesBefore(stsc, c) <= n < SamplesBefore(stsc, c) + SamplesIn(stsc, c) then Some(c)
    else FindChunk(stsc, chunks, n, c + 1)
  }

  // -- stsz, stts, stss --------------------------------------------------------------------

  function SampleSize(stsz: Bytes, n: nat): nat {
    Word(stsz, 12 + 4 * n)
  }

  function SizesFrom(stsz: Bytes, from: nat, k: nat): nat {
    if k == 0 then 0 else SizesFrom(stsz, from, k - 1) + SampleSize(stsz, from + k - 1)
  }

  /** The duration of the n-th sample from entry e on: entries count samples of equal duration. */
  function Delta(stts: Bytes, e: nat, n: nat): nat
    decreases Word(stts, 4) - e
  {
    if e >= Word(stts, 4) then 0
    else
      var count := Word(stts, 8 + 8 * e);
      if n < count then Word(stts, 12 + 8 * e) else Delta(stts, e + 1, n - count)
  }

  /** When sample n starts on the track. */
  function StartOf(stts: Bytes, n: nat): nat {
    if n == 0 then 0 else StartOf(stts, n - 1) + Delta(stts, 0, n - 1)
  }

  /** Sample n, counted from 0, is listed. */
  ghost predicate Listed(stss: Bytes, n: nat) {
    exists e :: 0 <= e < Word(stss, 4) && ListedAt(stss, e, n)
  }

  ghost predicate ListedAt(stss: Bytes, e: nat, n: nat) {
    Word(stss, 8 + 4 * e) == n + 1
  }

  // -- stsd: sample entries ----------------------------------------------------------------

  /** Entries are boxes one after another: the n-th from position i on, counted from 1. */
  function EntryFrom(stsd: Bytes, i: nat, n: nat): Option<Bytes>
    decreases n
  {
    var len := Word(stsd, i);
    if n == 0 || len < 8 || i + len > |stsd| then None
    else if n == 1 then Some(stsd[i..i + len])
    else EntryFrom(stsd, i + len, n - 1)
  }

  function StsdEntry(stsd: Bytes, n: nat): Option<Bytes> {
    EntryFrom(stsd, 8, n)
  }

  // -- samples -----------------------------------------------------------------------------

  /** Where a sample is and how long it is shown; its sample entry, counted from 1. */
  datatype Located = Located(place: Place, entry: nat)

  /** Sample n of a track with sample tables. */
  function LocateSample(stbl: seq<Tree>, n: nat): Option<Located> {
    var stsc, stsz, co64, stts := BodyOf(stbl, STSC), BodyOf(stbl, STSZ), BodyOf(stbl, CO64), BodyOf(stbl, STTS);
    match FindChunk(stsc, Word(co64, 4), n, 1)
    case None => None
    case Some(c) =>
      var before := SamplesBefore(stsc, c);
      var pos := Long(co64, 8 + 8 * (c - 1)) + SizesFrom(stsz, before, n - before);
      Some(Located(Place(pos, SampleSize(stsz, n), Delta(stts, 0, n)), Word(stsc, 16 + 12 * EntryOf(stsc, c))))
  }

  // -- fragments ---------------------------------------------------------------------------

  /** What a sample has if its run does not say. */
  datatype Defaults = Defaults(duration: nat, size: nat, flags: nat)

  /** From the track's trex box in the initialization segment, unless the fragment's tfhd says. */
  function DefaultsOf(tfhd: Bytes, trex: Bytes): Defaults {
    var flags := Word(tfhd, 0) % 0x100_0000;
    var a := 8 + 2 * Flagged(flags, 0x1) + Flagged(flags, 0x2);
    var b := a + Flagged(flags, 0x8);
    var c := b + Flagged(flags, 0x10);
    Defaults(if Bit(flags, 0x8) then Word(tfhd, a) else Word(trex, 12),
             if Bit(flags, 0x10) then Word(tfhd, b) else Word(trex, 16),
             if Bit(flags, 0x20) then Word(tfhd, c) else Word(trex, 20))
  }

  /** Data offsets count from the position that tfhd gives, or else from the moof box, which starts the
      file. */
  function BaseOf(tfhd: Bytes): nat {
    if Bit(Word(tfhd, 0) % 0x100_0000, 0x1) then Long(tfhd, 8) else 0
  }

  /** A sample: where it is, its size and duration, and whether it is a sync sample. */
  datatype Placed = Placed(pos: int, size: nat, duration: nat, sync: bool)

  /** Bit 0x10000 of a sample's flags: it is not a sync sample. */
  predicate IsSync(flags: nat) {
    !Bit(flags, 0x1_0000)
  }

  function Given(field: Option<nat>, default: nat): nat {
    match field case Some(x) => x case None => default
  }

  function FlagsAt(t: Trun, d: Defaults, k: nat): nat
    requires k < |t.samples|
  {
    if k == 0 && t.first.Some? then t.first.value else Given(t.samples[k].flags, d.flags)
  }

  function TrunSizes(t: Trun, d: Defaults, k: nat): nat
    requires k <= |t.samples|
  {
    if k == 0 then 0 else TrunSizes(t, d, k - 1) + Given(t.samples[k - 1].size, d.size)
  }

  /** The first k samples of a run whose data starts at pos. */
  function TrunSamples(t: Trun, d: Defaults, pos: int, k: nat): (r: seq<Placed>)
    requires k <= |t.samples|
    ensures |r| == k
  {
    if k == 0 then []
    else
      var s := t.samples[k - 1];
      TrunSamples(t, d, pos, k - 1)
      + [Placed(pos + TrunSizes(t, d, k - 1), Given(s.size, d.size), Given(s.duration, d.duration), IsSync(FlagsAt(t, d, k - 1)))]
  }

  /** A data offset's 32 bits: section 8.8.8 declares them signed; some players take them as unsigned. */
  function OffsetOf(bits: nat, signed: bool): int {
    if signed && bits >= 0x8000_0000 then bits - 0x1_0000_0000 else bits
  }

  /** Where the data of the last run starts: at its offset, or else where the run before ends. */
  function LastStart(ts: seq<Trun>, d: Defaults, base: nat, signed: bool): int
    requires ts != []
  {
    match ts[|ts| - 1].offset
    case Some(bits) => base + OffsetOf(bits, signed)
    case None =>
      if |ts| == 1 then base
      else
        var before := ts[..|ts| - 1];
        LastStart(before, d, base, signed) + TrunSizes(before[|before| - 1], d, |before[|before| - 1].samples|)
  }

  function SamplesOf(ts: seq<Trun>, d: Defaults, base: nat, signed: bool): seq<Placed> {
    if ts == [] then []
    else
      var t := ts[|ts| - 1];
      SamplesOf(ts[..|ts| - 1], d, base, signed) + TrunSamples(t, d, LastStart(ts, d, base, signed), |t.samples|)
  }

  /** The runs of a track fragment, from its trun boxes. */
  function ReadRuns(traf: seq<Tree>): seq<Trun> {
    if traf == [] then []
    else
      var rest, last := ReadRuns(traf[..|traf| - 1]), traf[|traf| - 1];
      if last.Leaf? && last.kind == TRUN && ReadRun(last.body).Some? then rest + [ReadRun(last.body).value] else rest
  }

  function Traf(file: seq<Tree>): seq<Tree> {
    Inside(Inside(file, MOOF), TRAF)
  }

  /** The track's trex box, in an initialization segment. */
  function Trex(init: seq<Tree>): Bytes {
    BodyOf(Inside(Inside(init, MOOV), MVEX), TREX)
  }

  /** The samples of a fragment that starts the file. */
  function FragmentSamples(file: seq<Tree>, trex: Bytes, signed: bool): seq<Placed> {
    var tfhd := BodyOf(Traf(file), TFHD);
    SamplesOf(ReadRuns(Traf(file)), DefaultsOf(tfhd, trex), BaseOf(tfhd), signed)
  }

  // -- time --------------------------------------------------------------------------------

  /** mvhd and mdhd: their time scale, in units a second, and their duration, in these units. */
  function ScaleOf(header: Bytes): nat {
    if Word(header, 0) / 0x100_0000 == 1 then Word(header, 20) else Word(header, 12)
  }

  function TimeOf(header: Bytes): nat {
    if Word(header, 0) / 0x100_0000 == 1 then Long(header, 24) else Word(header, 16)
  }

  function Mvhd(file: seq<Tree>): Bytes {
    BodyOf(Inside(file, MOOV), MVHD)
  }

  function Mdhd(file: seq<Tree>): Bytes {
    BodyOf(Inside(Trak(file), MDIA), MDHD)
  }

  /** The rate that mvhd prefers, a 16.16 fixed-point number. */
  function RateOf(mvhd: Bytes): nat {
    if Word(mvhd, 0) / 0x100_0000 == 1 then Word(mvhd, 32) else Word(mvhd, 20)
  }

  /** x units of the given scale, in units of 1/90000 s. */
  function Ticks(x: nat, scale: nat): nat {
    if scale == 0 then 0 else x * 90000 / scale
  }

  /** When sample n starts on the track. */
  function SampleTime(file: seq<Tree>, n: nat): nat {
    Ticks(StartOf(BodyOf(Stbl(file), STTS), n), ScaleOf(Mdhd(file)))
  }

  /** Of the movie, the track and its media, how long they say they are. */
  function MovieDuration(file: seq<Tree>): nat {
    Ticks(TimeOf(Mvhd(file)), ScaleOf(Mvhd(file)))
  }

  function MdhdDuration(file: seq<Tree>): nat {
    Ticks(TimeOf(Mdhd(file)), ScaleOf(Mdhd(file)))
  }

  function TrackDuration(file: seq<Tree>): nat {
    Ticks(Word(BodyOf(Trak(file), TKHD), 20), ScaleOf(Mvhd(file)))
  }

  // -- the track ---------------------------------------------------------------------------

  /** An enabled track with the video handler. */
  predicate IsVideoTrack(file: seq<Tree>) {
    && Bit(Word(BodyOf(Trak(file), TKHD), 0), 0x1)
    && Word(BodyOf(Inside(Trak(file), MDIA), HDLR), 8) == 0x7669_6465
  }

  /** Its width and height, whole pixels of 16.16 fixed-point numbers. */
  function TrackSize(file: seq<Tree>): (nat, nat) {
    (Word(BodyOf(Trak(file), TKHD), 76) / 0x1_0000, Word(BodyOf(Trak(file), TKHD), 80) / 0x1_0000)
  }

  // -- edit lists --------------------------------------------------------------------------

  /** The first k entries. Durations are in the movie's time scale, media times in the media's. */
  function EditsIn(elst: Bytes, k: nat): (es: seq<EditList.Entry>)
    ensures |es| == k
  {
    if k == 0 then []
    else EditsIn(elst, k - 1) + [EditList.Entry(Long(elst, 8 + 20 * (k - 1)), Long(elst, 16 + 20 * (k - 1)))]
  }

  /** Each entry plays at the rate 1.0. */
  ghost predicate NormalSpeed(elst: Bytes) {
    forall k | 0 <= k < Word(elst, 4) :: RateIsOne(elst, k)
  }

  predicate RateIsOne(elst: Bytes, k: nat) {
    Word(elst, 24 + 20 * k) == 0x1_0000
  }

  function ReadEdits(trak: seq<Tree>): Option<seq<EditList.Entry>> {
    if Child(trak, EDTS).None? then None
    else
      var elst := BodyOf(Inside(trak, EDTS), ELST);
      Some(EditsIn(elst, Word(elst, 4)))
  }

  /** Entries with their times in units of 1/90000 s. */
  function InTicks(es: seq<EditList.Entry>, movieScale: nat, mediaScale: nat): seq<EditList.Entry> {
    seq(|es|, i requires 0 <= i < |es| => EditList.Entry(Ticks(es[i].duration, movieScale), Ticks(es[i].mediaTime, mediaScale)))
  }

  /** What the track plays, in units of 1/90000 s of its media: what its edit list says, or else all of
      it. */
  ghost function MoviePlays(file: seq<Tree>): seq<int> {
    match ReadEdits(Trak(file))
    case Some(es) => EditList.Played(InTicks(es, ScaleOf(Mvhd(file)), ScaleOf(Mdhd(file))))
    case None => EditList.Units(0, SampleTime(file, Word(BodyOf(Stbl(file), STSZ), 8)))
  }
}
