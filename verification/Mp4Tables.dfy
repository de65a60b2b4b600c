/** The sample tables of a built .mp4, as its players read them. */
module Mp4Tables {
  import opened Base
  import opened BigEndian
  import opened BoxTree
  import opened SampleIndex
  import opened Segments
  import opened SampleTables
  import opened TrackRuns
  import opened Mp4Boxes
  import opened Mp4File
  import opened Mp4Serve
  import opened Mp4Reader
  import EditList

  // -- headers -----------------------------------------------------------------------------

  /** A table's header: version and flags, then the number of entries. */
  lemma HeaderIs(version: Bytes, n: nat, table: Bytes, i: nat)
    requires |version| == 4 && n < 0x1_0000_0000
    ensures Word(version + U32(n) + table, 4) == n && Word(version + U32(n) + table, 8 + i) == Word(table, i)
    ensures Long(version + U32(n) + table, 8 + i) == Long(table, i)
  {
    hide U32, Word, Long;
    AtEnd(version, U32(n));
    AtLonger(version + U32(n), table, 4, U32(n));
    WordAt(version + U32(n) + table, 4, n);
    WordBehind(version + U32(n), table, i);
    LongBehind(version + U32(n), table, i);
  }

  lemma CountIs(n: nat, table: Bytes, i: nat)
    requires n < 0x1_0000_0000
    ensures Word(ZERO4 + U32(n) + table, 4) == n && Word(ZERO4 + U32(n) + table, 8 + i) == Word(table, i)
    ensures Long(ZERO4 + U32(n) + table, 8 + i) == Long(table, i)
  {
    hide U32, Word, Long;
    HeaderIs(ZERO4, n, table, i);
  }

  /** stsz has one more field, zero. */
  lemma SizeCountIs(n: nat, table: Bytes, i: nat)
    requires n < 0x1_0000_0000
    ensures Word((ZERO4 + ZERO4) + U32(n) + table, 8) == n && Word((ZERO4 + ZERO4) + U32(n) + table, 12 + i) == Word(table, i)
  {
    hide U32, Word;
    var front := ZERO4 + ZERO4;
    AtEnd(front, U32(n));
    AtLonger(front + U32(n), table, 8, U32(n));
    WordAt(front + U32(n) + table, 8, n);
    WordBehind(front + U32(n), table, i);
  }

  lemma WordIs(data: Bytes, i: nat)
    requires i + 4 <= |data|
    ensures Word(data, i) == Read32(data, i)
  {
  }

  lemma Counts32(p: Params)
    requires ParamsOk(p)
    ensures |p.segs| < 0x1_0000_0000 && CountFrames(p.segs, |p.segs|) < 0x1_0000_0000
  {
  }

  /** Every number below the total is some frame of some segment. */
  lemma {:induction false} FindFrame(segs: seq<Seg>, n: nat, m: nat) returns (i: nat, k: nat)
    requires n <= |segs| && m < CountFrames(segs, n)
    ensures i < n && k < |segs[i].frames| && m == CountFrames(segs, i) + k
  {
    if m < CountFrames(segs, n - 1) {
      i, k := FindFrame(segs, n - 1, m);
    } else {
      i, k := n - 1, m - CountFrames(segs, n - 1);
    }
  }

  // -- chunks ------------------------------------------------------------------------------

  lemma StscWords(p: Params, i: nat)
    requires ParamsOk(p) && i < |p.segs|
    ensures var stsc := StscTree(p).body;
            && Word(stsc, 4) == |p.segs| && Word(stsc, 8 + 12 * i) == i + 1 && Word(stsc, 12 + 12 * i) == |p.segs[i].frames|
            && 1 <= Word(stsc, 16 + 12 * i) <= |p.entries| && p.entries[Word(stsc, 16 + 12 * i) - 1].id == p.segs[i].entry
  {
    ChunkRead(p, i);
    hide ParamsOk, Word, Read32, Stsc;
    StscWord(p, 12 * i);
    StscWord(p, 12 * i + 4);
    StscWord(p, 12 * i + 8);
  }

  lemma StscWord(p: Params, at: nat)
    requires ParamsOk(p) && |p.segs| < 0x1_0000_0000 && |p.entries| < 0x1_0000_0000 && at + 4 <= |Stsc(p, |p.segs|)|
    ensures StscTree(p).Leaf? && Word(StscTree(p).body, 4) == |p.segs|
    ensures Word(StscTree(p).body, 8 + at) == Read32(Stsc(p, |p.segs|), at)
  {
    hide ParamsOk, Word, Read32, Stsc, Long, U32;
    CountIs(|p.segs|, Stsc(p, |p.segs|), at);
    WordIs(Stsc(p, |p.segs|), at);
  }

  lemma {:induction false} ChunkEntryIs(p: Params, c: nat, e: nat)
    requires ParamsOk(p) && 1 <= c <= e <= |p.segs|
    ensures ChunkEntry(StscTree(p).body, c, e) == c - 1
  {
    hide ParamsOk, StscTree, Word;
    StscWords(p, e - 1);
    if c < e {
      ChunkEntryIs(p, c, e - 1);
    }
  }

  lemma ChunkIs(p: Params, c: nat)
    requires ParamsOk(p) && 1 <= c <= |p.segs|
    ensures EntryOf(StscTree(p).body, c) == c - 1 && SamplesIn(StscTree(p).body, c) == |p.segs[c - 1].frames|
  {
    hide ParamsOk, StscTree, Word, ChunkEntry;
    StscWords(p, c - 1);
    ChunkEntryIs(p, c, |p.segs|);
  }

  lemma {:induction false} SamplesBeforeIs(p: Params, c: nat)
    requires ParamsOk(p) && 1 <= c <= |p.segs| + 1
    ensures SamplesBefore(StscTree(p).body, c) == CountFrames(p.segs, c - 1)
  {
    hide ParamsOk, StscTree, SamplesIn;
    if c > 1 {
      SamplesBeforeIs(p, c - 1);
      ChunkIs(p, c - 1);
    }
  }

  /** A player finds the chunk of every sample. */
  lemma {:induction false} FindChunkIs(p: Params, i: nat, k: nat, c: nat)
    requires ParamsOk(p) && i < |p.segs| && k < |p.segs[i].frames| && 1 <= c <= i + 1
    ensures FindChunk(StscTree(p).body, |p.segs|, CountFrames(p.segs, i) + k, c) == Some(i + 1)
    decreases i + 1 - c
  {
    hide ParamsOk, StscTree, SamplesIn, SamplesBefore;
    SamplesBeforeIs(p, c);
    ChunkIs(p, c);
    if c < i + 1 {
      FramesGrow(p.segs, c, i);
      FindChunkIs(p, i, k, c + 1);
    }
  }

  // -- sizes and offsets -------------------------------------------------------------------

  lemma SizeIs(p: Params, i: nat, k: nat)
    requires ParamsOk(p) && i < |p.segs| && k < |p.segs[i].frames|
    ensures SampleSize(StszTree(p).body, CountFrames(p.segs, i) + k) == p.segs[i].frames[k].bytes
  {
    hide ParamsOk, Word, Read32, StszAll;
    SizeRead(p, i, k);
    Counts32(p);
    var at := 4 * (CountFrames(p.segs, i) + k);
    SizeCountIs(CountFrames(p.segs, |p.segs|), StszAll(p, |p.segs|), at);
    WordIs(StszAll(p, |p.segs|), at);
  }

  lemma {:induction false} SizesFromIs(p: Params, i: nat, k: nat)
    requires ParamsOk(p) && i < |p.segs| && k <= |p.segs[i].frames|
    ensures SizesFrom(StszTree(p).body, CountFrames(p.segs, i), k) == SizesIn(p.segs[i].frames, 0, k)
  {
    hide ParamsOk, StszTree, SampleSize;
    if k > 0 {
      SizesFromIs(p, i, k - 1);
      SizeIs(p, i, k - 1);
    }
  }

  lemma OffsetIs(p: Params, i: nat, pos: nat)
    requires ParamsOk(p) && i < |p.segs| && pos + CountBytes(p.segs, i) < 0x1_0000_0000_0000_0000
    ensures Word(Co64Tree(p, pos).body, 4) == |p.segs|
    ensures Long(Co64Tree(p, pos).body, 8 + 8 * i) == pos + CountBytes(p.segs, i)
  {
    hide ParamsOk, Word, Read64, U64, U32, Co64;
    OffsetRead(p.segs, i, pos);
    Counts32(p);
    CountIs(|p.segs|, Co64(p.segs, |p.segs|, pos), 8 * i);
  }

  // -- durations ---------------------------------------------------------------------------

  lemma {:induction false} SttsLength(p: Params, n: nat)
    requires ParamsOk(p) && n <= |p.segs|
    ensures |SttsAll(p, n)| == 8 * CountFrames(p.segs, n)
  {
    hide ParamsOk;
    if n > 0 {
      SegTabled(p, n - 1);
      SttsLength(p, n - 1);
    }
  }

  lemma {:induction false} SttsAllAt(p: Params, i: nat, n: nat)
    requires ParamsOk(p) && i < n <= |p.segs|
    ensures p.segs[i].frames != [] && Tabled(p.segs[i].frames, 0) && Shown(p.segs[i].frames, p.segs[i].part.end, |p.segs[i].frames| - 1) >= 0
    ensures At(SttsAll(p, n), 8 * CountFrames(p.segs, i), SttsCut(p.segs[i].frames, p.segs[i].part.end))
    decreases n
  {
    hide ParamsOk, SttsCut, Shown, Tabled;
    SttsLength(p, n - 1);
    SegNotEmpty(p, i);
    SegNotEmpty(p, n - 1);
    SegTabled(p, i);
    SegTabled(p, n - 1);
    var piece := SttsCut(p.segs[i].frames, p.segs[i].part.end);
    if i < n - 1 {
      SttsAllAt(p, i, n - 1);
      AtLonger(SttsAll(p, n - 1), SttsCut(p.segs[n - 1].frames, p.segs[n - 1].part.end), 8 * CountFrames(p.segs, i), piece);
    } else {
      AtEnd(SttsAll(p, i), piece);
    }
  }

  /** The stts entry of frame k of segment i. */
  lemma DurationRead(p: Params, i: nat, k: nat)
    requires ParamsOk(p) && i < |p.segs| && k < |p.segs[i].frames|
    ensures 0 <= Shown(p.segs[i].frames, p.segs[i].part.end, k)
    ensures var at := 8 * (CountFrames(p.segs, i) + k);
            Word(SttsAll(p, |p.segs|), at) == 1 && Word(SttsAll(p, |p.segs|), at + 4) == Shown(p.segs[i].frames, p.segs[i].part.end, k)
  {
    hide ParamsOk, Word, U32, SttsCut, SttsAll, Tabled, Shown;
    SttsAllAt(p, i, |p.segs|);
    var fs, end, at := p.segs[i].frames, p.segs[i].part.end, 8 * CountFrames(p.segs, i);
    SttsEntry(fs, end, k);
    var stts, x := SttsAll(p, |p.segs|), Shown(fs, end, k);
    AtInside(stts, at, SttsCut(fs, end), 8 * k, U32(1) + U32(x));
    AtSplit(stts, at + 8 * k, U32(1), U32(x));
    WordAt(stts, at + 8 * k, 1);
    WordAt(stts, at + 8 * k + 4, x);
  }

  lemma SttsWords(p: Params, i: nat, k: nat)
    requires ParamsOk(p) && i < |p.segs| && k < |p.segs[i].frames|
    ensures 0 <= Shown(p.segs[i].frames, p.segs[i].part.end, k)
    ensures var stts, n := SttsTree(p).body, CountFrames(p.segs, i) + k;
            && Word(stts, 4) == CountFrames(p.segs, |p.segs|) && Word(stts, 8 + 8 * n) == 1
            && Word(stts, 12 + 8 * n) == Shown(p.segs[i].frames, p.segs[i].part.end, k)
  {
    hide ParamsOk, Word, SttsAll, Shown, Long, U32;
    DurationRead(p, i, k);
    Counts32(p);
    var total, at := CountFrames(p.segs, |p.segs|), 8 * (CountFrames(p.segs, i) + k);
    CountIs(total, SttsAll(p, |p.segs|), at);
    CountIs(total, SttsAll(p, |p.segs|), at + 4);
  }

  /** Entries of one sample each: a player goes from entry to entry. */
  lemma {:induction false} DeltaIs(p: Params, e: nat, n: nat)
    requires ParamsOk(p) && e + n < CountFrames(p.segs, |p.segs|)
    ensures Delta(SttsTree(p).body, e, n) == Word(SttsTree(p).body, 12 + 8 * (e + n))
    decreases n
  {
    hide ParamsOk, Word, SttsTree, Shown;
    var i, k := FindFrame(p.segs, |p.segs|, e);
    SttsWords(p, i, k);
    if n > 0 {
      DeltaIs(p, e + 1, n - 1);
    }
  }

  lemma DurationIs(p: Params, i: nat, k: nat)
    requires ParamsOk(p) && i < |p.segs| && k < |p.segs[i].frames|
    ensures Delta(SttsTree(p).body, 0, CountFrames(p.segs, i) + k) == Shown(p.segs[i].frames, p.segs[i].part.end, k)
  {
    hide ParamsOk, Word, SttsTree, Shown, Delta;
    FramesGrow(p.segs, i + 1, |p.segs|);
    SttsWords(p, i, k);
    DeltaIs(p, 0, CountFrames(p.segs, i) + k);
  }

  /** Frame k of segment i starts after everything shown before it. */
  lemma {:induction false} StartIs(p: Params, i: nat, k: nat)
    requires ParamsOk(p) && i < |p.segs| && k <= |p.segs[i].frames|
    ensures StartOf(SttsTree(p).body, CountFrames(p.segs, i) + k) == SttsTime(p.segs, i) + SumShown(p.segs[i].frames, p.segs[i].part.end, k)
    decreases i, k
  {
    hide ParamsOk, SttsTree, Shown, Delta;
    if k > 0 {
      StartIs(p, i, k - 1);
      DurationIs(p, i, k - 1);
    } else if i > 0 {
      StartIs(p, i - 1, |p.segs[i - 1].frames|);
    }
  }

  lemma SegmentStart(p: Params, i: nat)
    requires ParamsOk(p) && i <= |p.segs|
    ensures StartOf(SttsTree(p).body, CountFrames(p.segs, i)) == SttsTime(p.segs, i)
  {
    hide ParamsOk, Shown, StartOf, SttsAll;
    if i > 0 {
      StartIs(p, i - 1, |p.segs[i - 1].frames|);
    } else {
      StartZero(SttsTree(p).body);
    }
  }

  lemma StartZero(stts: Bytes)
    ensures StartOf(stts, 0) == 0
  {
  }

  // -- sync samples ------------------------------------------------------------------------

  lemma {:induction false} KeysBelowFrames(segs: seq<Seg>, n: nat)
    requires n <= |segs|
    ensures Mp4Boxes.CountKeys(segs, n) <= CountFrames(segs, n)
  {
    if n > 0 {
      KeysBelowFrames(segs, n - 1);
      KeysBound(segs[n - 1].frames, 0, |segs[n - 1].frames|);
    }
  }

  /** Entry e of a table of numbers is m. */
  ghost predicate EntryAt(table: Bytes, e: nat, m: nat) {
    4 * e + 4 <= |table| && Word(table, 4 * e) == m
  }

  lemma EntryLonger(table: Bytes, more: Bytes, e: nat, m: nat)
    requires EntryAt(table, e, m)
    ensures EntryAt(table + more, e, m)
  {
    var data := table + more;
    assert data[4 * e] == table[4 * e] && data[4 * e + 1] == table[4 * e + 1];
    assert data[4 * e + 2] == table[4 * e + 2] && data[4 * e + 3] == table[4 * e + 3];
  }

  lemma EntryBehind(front: Bytes, table: Bytes, f: nat, e: nat, m: nat)
    requires |front| == 4 * f && EntryAt(table, e, m)
    ensures EntryAt(front + table, f + e, m)
  {
    hide Word;
    WordBehind(front, table, 4 * e);
  }

  lemma EntryNew(table: Bytes, e: nat, m: nat)
    requires |table| == 4 * e && m < 0x1_0000_0000
    ensures EntryAt(table + U32(m), e, m)
  {
    hide U32, Word;
    AtEnd(table, U32(m));
    WordAt(table + U32(m), 4 * e, m);
  }

  /** Entry e of a segment's stss is some key frame's number. */
  lemma {:induction false} SyncOnly(fs: seq<It>, first: nat, n: nat, e: nat) returns (k: nat)
    requires n <= |fs| && Tabled(fs, first) && e < KeysIn(fs, 0, n)
    ensures k < n && fs[k].isKey && EntryAt(Stss(fs, first, n), e, first + k)
  {
    hide U32, EntryAt;
    if e < KeysIn(fs, 0, n - 1) {
      k := SyncOnly(fs, first, n - 1, e);
      EntryLonger(Stss(fs, first, n - 1), if fs[n - 1].isKey then U32(first + n - 1) else [], e, first + k);
    } else {
      k := n - 1;
      EntryNew(Stss(fs, first, n - 1), e, first + k);
    }
  }

  lemma {:induction false} StssLength(p: Params, n: nat)
    requires ParamsOk(p) && n <= |p.segs|
    ensures |StssAll(p, n)| == 4 * Mp4Boxes.CountKeys(p.segs, n)
  {
    hide ParamsOk;
    if n > 0 {
      SegTabled(p, n - 1);
      StssLength(p, n - 1);
    }
  }

  /** Every entry of stss is the number of some key frame. */
  lemma {:induction false} SyncEntry(p: Params, n: nat, e: nat) returns (i: nat, k: nat)
    requires ParamsOk(p) && n <= |p.segs| && e < Mp4Boxes.CountKeys(p.segs, n)
    ensures i < n && k < |p.segs[i].frames| && p.segs[i].frames[k].isKey
    ensures EntryAt(StssAll(p, n), e, CountFrames(p.segs, i) + k + 1)
  {
    hide ParamsOk, EntryAt, Stss;
    SegTabled(p, n - 1);
    StssLength(p, n - 1);
    var fs, first := p.segs[n - 1].frames, Mp4Boxes.FirstFrame(p.segs, n - 1);
    var piece := Stss(fs, first, |fs|);
    if e < Mp4Boxes.CountKeys(p.segs, n - 1) {
      i, k := SyncEntry(p, n - 1, e);
      EntryLonger(StssAll(p, n - 1), piece, e, CountFrames(p.segs, i) + k + 1);
    } else {
      i := n - 1;
      k := SyncOnly(fs, first, |fs|, e - Mp4Boxes.CountKeys(p.segs, n - 1));
      EntryBehind(StssAll(p, n - 1), piece, Mp4Boxes.CountKeys(p.segs, n - 1), e - Mp4Boxes.CountKeys(p.segs, n - 1), first + k);
    }
  }

  /** The number of every key frame is in stss. */
  lemma {:induction false} SyncListed(p: Params, n: nat, i: nat, k: nat) returns (e: nat)
    requires ParamsOk(p) && i < n <= |p.segs| && k < |p.segs[i].frames| && p.segs[i].frames[k].isKey
    ensures e < Mp4Boxes.CountKeys(p.segs, n) && EntryAt(StssAll(p, n), e, CountFrames(p.segs, i) + k + 1)
    decreases n
  {
    hide ParamsOk, EntryAt, Stss;
    SegTabled(p, n - 1);
    StssLength(p, n - 1);
    var fs, first := p.segs[n - 1].frames, Mp4Boxes.FirstFrame(p.segs, n - 1);
    var piece := Stss(fs, first, |fs|);
    if i < n - 1 {
      e := SyncListed(p, n - 1, i, k);
      EntryLonger(StssAll(p, n - 1), piece, e, CountFrames(p.segs, i) + k + 1);
    } else {
      SegmentSync(fs, first, k);
      KeysGrow(fs, 0, k + 1, |fs|);
      e := Mp4Boxes.CountKeys(p.segs, n - 1) + KeysIn(fs, 0, k);
      EntryBehind(StssAll(p, n - 1), piece, Mp4Boxes.CountKeys(p.segs, n - 1), KeysIn(fs, 0, k), first + k);
    }
  }

  lemma SegmentSync(fs: seq<It>, first: nat, k: nat)
    requires k < |fs| && Tabled(fs, first) && fs[k].isKey
    ensures EntryAt(Stss(fs, first, |fs|), KeysIn(fs, 0, k), first + k)
  {
    hide U32, Word, Stss, KeysIn;
    StssAt(fs, first, k, |fs|);
    WordAt(Stss(fs, first, |fs|), 4 * KeysIn(fs, 0, k), first + k);
  }

  lemma StssHeader(p: Params)
    requires ParamsOk(p)
    ensures Word(StssTree(p).body, 4) == Mp4Boxes.CountKeys(p.segs, |p.segs|)
    ensures forall e: nat, m: nat :: EntryAt(StssAll(p, |p.segs|), e, m) ==> Word(StssTree(p).body, 8 + 4 * e) == m
  {
    hide ParamsOk, Word, StssAll, Long, U32;
    Counts32(p);
    KeysBelowFrames(p.segs, |p.segs|);
    CountIs(Mp4Boxes.CountKeys(p.segs, |p.segs|), StssAll(p, |p.segs|), 0);
    forall e: nat, m: nat | EntryAt(StssAll(p, |p.segs|), e, m)
      ensures Word(StssTree(p).body, 8 + 4 * e) == m
    {
      CountIs(Mp4Boxes.CountKeys(p.segs, |p.segs|), StssAll(p, |p.segs|), 4 * e);
    }
  }

  lemma {:induction false} FramesApart(segs: seq<Seg>, i: nat, k: nat, j: nat, l: nat)
    requires i < |segs| && k < |segs[i].frames| && j < |segs| && l < |segs[j].frames|
    requires CountFrames(segs, i) + k == CountFrames(segs, j) + l
    ensures i == j && k == l
  {
    if i < j {
      FramesGrow(segs, i + 1, j);
    } else if j < i {
      FramesGrow(segs, j + 1, i);
    }
  }

  /** stss lists a sample exactly if its frame is a key frame. */
  lemma SyncIs(p: Params, i: nat, k: nat)
    requires ParamsOk(p) && i < |p.segs| && k < |p.segs[i].frames|
    ensures Listed(StssTree(p).body, CountFrames(p.segs, i) + k) <==> p.segs[i].frames[k].isKey
  {
    hide ParamsOk, Word, StssAll, EntryAt;
    StssHeader(p);
    var stss, n := StssTree(p).body, CountFrames(p.segs, i) + k;
    if p.segs[i].frames[k].isKey {
      var e := SyncListed(p, |p.segs|, i, k);
      assert ListedAt(stss, e, n);
    }
    if Listed(stss, n) {
      var e: nat :| 0 <= e < Word(stss, 4) && ListedAt(stss, e, n);
      var j, l := SyncEntry(p, |p.segs|, e);
      FramesApart(p.segs, i, k, j, l);
    }
  }

  // -- sample entries ----------------------------------------------------------------------

  /** A sample entry is a box: it starts with its own length. */
  ghost predicate IsBox(data: Bytes) {
    |data| >= 8 && Word(data, 0) == |data|
  }

  ghost predicate EntriesAreBoxes(p: Params) {
    forall j | 0 <= j < |p.entries| :: IsBox(p.entries[j].data)
  }

  lemma {:induction false} EntriesGrow(entries: seq<VideoEntry>, e: nat, n: nat)
    requires e < n <= |entries|
    ensures At(EntriesAll(entries, n), |EntriesAll(entries, e)|, entries[e].data)
    decreases n
  {
    hide At;
    if e < n - 1 {
      EntriesGrow(entries, e, n - 1);
      AtLonger(EntriesAll(entries, n - 1), entries[n - 1].data, |EntriesAll(entries, e)|, entries[e].data);
    } else {
      AtEnd(EntriesAll(entries, e), entries[e].data);
    }
  }

  /** A player that goes from entry to entry finds each. */
  lemma {:induction false} EntryIs(p: Params, front: Bytes, e: nat, n: nat)
    requires EntriesAreBoxes(p) && n >= 1 && e + n <= |p.entries|
    ensures EntryFrom(front + EntriesAll(p.entries, |p.entries|), |front| + |EntriesAll(p.entries, e)|, n) == Some(p.entries[e + n - 1].data)
    decreases n
  {
    hide EntriesAll, Word, EntriesAreBoxes, EntryFrom;
    EntryHere(p, front, e);
    EntryNext(front + EntriesAll(p.entries, |p.entries|), |front| + |EntriesAll(p.entries, e)|, p.entries[e].data, n);
    if n > 1 {
      EntryIs(p, front, e + 1, n - 1);
    }
  }

  lemma EntryNext(stsd: Bytes, i: nat, d: Bytes, n: nat)
    requires n >= 1 && Word(stsd, i) == |d| >= 8 && i + |d| <= |stsd| && stsd[i..i + |d|] == d
    ensures EntryFrom(stsd, i, n) == if n == 1 then Some(d) else EntryFrom(stsd, i + |d|, n - 1)
  {
    hide Word;
  }

  lemma EntryHere(p: Params, front: Bytes, e: nat)
    requires EntriesAreBoxes(p) && e < |p.entries|
    ensures var stsd, i, d := front + EntriesAll(p.entries, |p.entries|), |front| + |EntriesAll(p.entries, e)|, p.entries[e].data;
            && Word(stsd, i) == |d| >= 8 && i + |d| <= |stsd| && stsd[i..i + |d|] == d
            && |front| + |EntriesAll(p.entries, e + 1)| == i + |d|
  {
    var table, d, at := EntriesAll(p.entries, |p.entries|), p.entries[e].data, |EntriesAll(p.entries, e)|;
    assert IsBox(d);
    hide Word, At;
    EntriesGrow(p.entries, e, |p.entries|);
    AtBehind(front, table, at, d);
    WordOf(front + table, |front| + at, d);
    AtBound(front + table, |front| + at, d);
  }

  lemma WordOf(data: Bytes, i: nat, piece: Bytes)
    requires At(data, i, piece) && |piece| >= 4
    ensures Word(data, i) == Word(piece, 0)
  {
    var s := data[i..i + |piece|];
    assert s[0] == data[i] && s[1] == data[i + 1] && s[2] == data[i + 2] && s[3] == data[i + 3];
  }

  lemma StsdIs(p: Params, e: nat)
    requires ParamsOk(p) && EntriesAreBoxes(p) && 1 <= e <= |p.entries|
    ensures StsdEntry(StsdTree(p).body, e) == Some(p.entries[e - 1].data)
  {
    SmallCounts(p);
    hide ParamsOk, U32, EntryFrom;
    EntryIs(p, ZERO4 + U32(|p.entries|), 0, e);
  }

  // -- edit lists --------------------------------------------------------------------------

  ghost predicate Fit64(es: seq<EditList.Entry>) {
    forall i | 0 <= i < |es| :: es[i].duration < 0x1_0000_0000_0000_0000 && es[i].mediaTime < 0x1_0000_0000_0000_0000
  }

  lemma {:induction false} ElstLength(es: seq<EditList.Entry>, k: nat)
    requires k <= |es|
    ensures |ElstEntries(es, k)| == 20 * k
  {
    if k > 0 {
      ElstLength(es, k - 1);
    }
  }

  lemma {:induction false} ElstAt(es: seq<EditList.Entry>, k: nat, n: nat)
    requires k < n <= |es| && Fit64(es)
    ensures At(ElstEntries(es, n), 20 * k, U64(es[k].duration) + U64(es[k].mediaTime) + [0, 1, 0, 0])
    decreases n
  {
    hide U64, At;
    ElstLength(es, n - 1);
    var piece, last := U64(es[k].duration) + U64(es[k].mediaTime) + [0, 1, 0, 0], U64(es[n - 1].duration) + U64(es[n - 1].mediaTime) + [0, 1, 0, 0];
    assert ElstEntries(es, n) == ElstEntries(es, n - 1) + last;
    if k < n - 1 {
      ElstAt(es, k, n - 1);
      AtLonger(ElstEntries(es, n - 1), last, 20 * k, piece);
    } else {
      AtEnd(ElstEntries(es, k), piece);
    }
  }

  lemma EditRead(es: seq<EditList.Entry>, k: nat)
    requires k < |es| && Fit64(es)
    ensures Long(ElstEntries(es, |es|), 20 * k) == es[k].duration && Long(ElstEntries(es, |es|), 20 * k + 8) == es[k].mediaTime
  {
    hide U64, Long, ElstEntries;
    var table, d, m := ElstEntries(es, |es|), U64(es[k].duration), U64(es[k].mediaTime);
    ElstAt(es, k, |es|);
    AtSplit(table, 20 * k, d + m, [0, 1, 0, 0]);
    AtSplit(table, 20 * k, d, m);
    LongAt(table, 20 * k, es[k].duration);
    LongAt(table, 20 * k + 8, es[k].mediaTime);
  }

  lemma {:induction false} EditsBack(es: seq<EditList.Entry>, k: nat)
    requires k <= |es| < 0x1_0000_0000 && Fit64(es)
    ensures EditsIn(VERSION1 + U32(|es|) + ElstEntries(es, |es|), k) == es[..k]
  {
    hide U32, Long, ElstEntries, Word;
    if k > 0 {
      EditsBack(es, k - 1);
      EditRead(es, k - 1);
      HeaderIs(VERSION1, |es|, ElstEntries(es, |es|), 20 * (k - 1));
      HeaderIs(VERSION1, |es|, ElstEntries(es, |es|), 20 * (k - 1) + 8);
      assert es[..k] == es[..k - 1] + [es[k - 1]];
    }
  }

  lemma EditCount(es: seq<EditList.Entry>)
    requires |es| < 0x1_0000_0000
    ensures Word(VERSION1 + U32(|es|) + ElstEntries(es, |es|), 4) == |es|
  {
    hide U32, Word, ElstEntries;
    HeaderIs(VERSION1, |es|, ElstEntries(es, |es|), 0);
  }

  /** Every entry of an edit list plays at the normal rate. */
  lemma RatesAre(es: seq<EditList.Entry>)
    requires |es| < 0x1_0000_0000 && Fit64(es)
    ensures NormalSpeed(VERSION1 + U32(|es|) + ElstEntries(es, |es|))
  {
    hide U32, ElstEntries, Word, Long, Fit64;
    EditCount(es);
    forall k | 0 <= k < |es| ensures RateIsOne(VERSION1 + U32(|es|) + ElstEntries(es, |es|), k) {
      RateRead(es, k);
      HeaderIs(VERSION1, |es|, ElstEntries(es, |es|), 20 * k + 16);
    }
  }

  lemma RateOne()
    ensures U32(0x1_0000) == [0, 1, 0, 0]
  {
  }

  lemma ThirdPart(data: Bytes, i: nat, a: Bytes, b: Bytes, c: Bytes)
    requires At(data, i, a + b + c)
    ensures At(data, i + |a| + |b|, c)
  {
    AtSplit(data, i, a + b, c);
  }

  lemma FitsAt(es: seq<EditList.Entry>, k: nat)
    requires k < |es| && Fit64(es)
    ensures es[k].duration < 0x1_0000_0000_0000_0000 && es[k].mediaTime < 0x1_0000_0000_0000_0000
  {
  }

  lemma RateRead(es: seq<EditList.Entry>, k: nat)
    requires k < |es| && Fit64(es)
    ensures Word(ElstEntries(es, |es|), 20 * k + 16) == 0x1_0000
  {
    hide U64, Word, ElstEntries, U32, At, Fit64;
    RateOne();
    FitsAt(es, k);
    ElstAt(es, k, |es|);
    ThirdPart(ElstEntries(es, |es|), 20 * k, U64(es[k].duration), U64(es[k].mediaTime), [0, 1, 0, 0]);
    WordAt(ElstEntries(es, |es|), 20 * k + 16, 0x1_0000);
  }
}
