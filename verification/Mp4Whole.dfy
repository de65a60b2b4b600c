/** Built .mp4 files as a whole. The offsets in a file are rendered from the position of its first
    sample, which the build finds out; nothing in the length of the file depends on it. So a player
    that parses the file finds every sample where its bytes are. */
module Mp4Whole {
  import opened Base
  import opened BigEndian
  import opened BoxTree
  import opened SampleIndex
  import opened Segments
  import opened SampleTables
  import opened TrackRuns
  import opened Mp4Boxes
  import opened Mp4File
  import opened Mp4Serve
  import opened Mp4Reader
  import opened Mp4Tables
  import opened Mp4Lengths
  import opened Mp4Headers
  import EditList

  /** What a player must know of frame k of segment i: where its bytes are and how many, how long it is
      shown, and its sample entry. */
  ghost predicate Found(p: Params, i: nat, k: nat, pos: nat, l: Located)
    requires i < |p.segs| && k < |p.segs[i].frames|
  {
    && l.place.pos == pos + CountBytes(p.segs, i) + SizesIn(p.segs[i].frames, 0, k)
    && l.place.size == p.segs[i].frames[k].bytes && l.place.duration == Shown(p.segs[i].frames, p.segs[i].part.end, k)
    && 1 <= l.entry <= |p.entries| && p.entries[l.entry - 1].id == p.segs[i].entry
  }

  lemma LocateIs(p: Params, init: bool, pos: nat, i: nat, k: nat)
    requires ParamsOk(p) && i < |p.segs| && k < |p.segs[i].frames| && pos + CountBytes(p.segs, i) < 0x1_0000_0000_0000_0000
    ensures match LocateSample(StblKids(p, init, pos), CountFrames(p.segs, i) + k)
            case None => false
            case Some(l) => Found(p, i, k, pos, l)
  {
    hide ParamsOk, StblKids, Word, Long, SampleSize, SizesFrom, Delta, FindChunk, EntryOf, SamplesBefore, Shown, SizesIn, CountBytes;
    TablesFound(p, init, pos);
    FindChunkIs(p, i, k, 1);
    SamplesBeforeIs(p, i + 1);
    ChunkIs(p, i + 1);
    StscWords(p, i);
    OffsetIs(p, i, pos);
    SizesFromIs(p, i, k);
    SizeIs(p, i, k);
    DurationIs(p, i, k);
  }

  /** A player that goes through stsc, stsz, co64 and stts finds the bytes of frame k of segment i and how
      long it is shown, in units of 1/90000 s; stss lists it exactly if it is a key frame; and the sample
      entry it uses is, if entries are boxes, found in stsd. */
  ghost predicate SampleRead(p: Params, i: nat, k: nat, pos: nat, boxes: seq<Tree>, file: Bytes)
    requires i < |p.segs| && k < |p.segs[i].frames|
  {
    var n := CountFrames(p.segs, i) + k;
    && (Listed(BodyOf(Stbl(boxes), STSS), n) <==> p.segs[i].frames[k].isKey)
    && match LocateSample(Stbl(boxes), n)
       case None => false
       case Some(l) =>
         && Found(p, i, k, pos, l) && SampleAt(p.segs[i], k, file, l.place.pos)
         && Ticks(l.place.duration, ScaleOf(Mdhd(boxes))) == Shown(p.segs[i].frames, p.segs[i].part.end, k)
         && (EntriesAreBoxes(p) ==> StsdEntry(BodyOf(Stbl(boxes), STSD), l.entry) == Some(p.entries[l.entry - 1].data))
  }

  lemma StblReads(p: Params, edits: Option<seq<EditList.Entry>>, pos: nat, i: nat, k: nat, file: Bytes)
    requires ParamsOk(p) && p.entries != [] && i < |p.segs| && k < |p.segs[i].frames|
    requires pos + CountBytes(p.segs, i) < 0x1_0000_0000_0000_0000
    requires SampleAt(p.segs[i], k, file, pos + CountBytes(p.segs, i) + SizesIn(p.segs[i].frames, 0, k))
    ensures SampleRead(p, i, k, pos, FileTrees(p, Normal, edits, pos), file)
  {
    hide ParamsOk, StblKids, LocateSample, FileTrees, Found, SampleAt, Stbl, StssTree, Listed, BodyOf, Mdhd, ScaleOf, Ticks, EntriesAreBoxes, StsdEntry, StsdTree, Shown;
    BoxesFound(p, Normal, edits, pos);
    SyncFound(p, pos, i, k);
    LocateIs(p, false, pos, i, k);
    var l := LocateSample(StblKids(p, false, pos), CountFrames(p.segs, i) + k).value;
    FoundAt(p, i, k, file, pos, l);
    TimesFound(p, Normal, edits, pos);
    TicksSame(l.place.duration);
    EntryFound(p, pos, l.entry);
  }

  lemma EntryFound(p: Params, pos: nat, e: nat)
    requires ParamsOk(p) && 1 <= e <= |p.entries|
    ensures EntriesAreBoxes(p) ==> StsdEntry(BodyOf(StblKids(p, false, pos), STSD), e) == Some(p.entries[e - 1].data)
  {
    hide ParamsOk, StblKids, BodyOf, EntriesAreBoxes, StsdEntry;
    TablesFound(p, false, pos);
    if EntriesAreBoxes(p) {
      StsdIs(p, e);
    }
  }

  lemma SyncFound(p: Params, pos: nat, i: nat, k: nat)
    requires ParamsOk(p) && i < |p.segs| && k < |p.segs[i].frames|
    ensures Listed(BodyOf(StblKids(p, false, pos), STSS), CountFrames(p.segs, i) + k) <==> p.segs[i].frames[k].isKey
  {
    hide ParamsOk, StblKids, Listed, BodyOf;
    TablesFound(p, false, pos);
    SyncIs(p, i, k);
  }

  /** In the normal file a build makes, every frame is a sample of the track, found as above. */
  lemma NormalSample(p: Params, edits: Option<seq<EditList.Entry>>, pos: nat, first: nat, i: nat, k: nat)
    requires BuildDone(p, Normal, edits, pos, first) && Short(p, Normal, edits, pos)
    requires i < |p.segs| && k < |p.segs[i].frames|
    ensures var file := FileBytes(p, Normal, edits, first);
            match Parse(file, 0, |file|)
            case None => false
            case Some(boxes) => SampleRead(p, i, k, first, boxes, file)
  {
    hide ParamsOk, Parse, FileTrees, FileBytes, SampleRead, SampleAt, EditList.EditsOk, Short, SizesIn;
    TrueFile(p, Normal, edits, pos, first);
    SampleIsThere(p, Normal, edits, pos, first, i, k);
    StblReads(p, edits, first, i, k, FileBytes(p, Normal, edits, first));
  }

  /** The true place of a frame's bytes in the file. */
  lemma SampleIsThere(p: Params, t: FileType, edits: Option<seq<EditList.Entry>>, pos: nat, first: nat, i: nat, k: nat)
    requires BuildDone(p, t, edits, pos, first) && t != InitSegment && i < |p.segs| && k < |p.segs[i].frames|
    ensures pos == first || |FileBytes(p, t, edits, first)| == |FileBytes(p, t, edits, pos)|
    ensures var at := first + CountBytes(p.segs, i) + SizesIn(p.segs[i].frames, 0, k);
            at <= |FileBytes(p, t, edits, first)| < 0x100_0000_0000 && SampleAt(p.segs[i], k, FileBytes(p, t, edits, first), at)
  {
    hide ParamsOk, FileTrees, SampleAt, DataAll, SerializeAll, EditList.EditsOk;
    var file := FileBytes(p, t, edits, first);
    FileLength(p, t, edits, pos, first);
    DataEnds(p, t, edits, first, file);
    DataSample(p, i, k, file, first);
  }

  lemma FoundAt(p: Params, i: nat, k: nat, file: Bytes, pos: nat, l: Located)
    requires i < |p.segs| && k < |p.segs[i].frames| && Found(p, i, k, pos, l)
    requires SampleAt(p.segs[i], k, file, pos + CountBytes(p.segs, i) + SizesIn(p.segs[i].frames, 0, k))
    ensures SampleAt(p.segs[i], k, file, l.place.pos)
    ensures l.place.duration == Shown(p.segs[i].frames, p.segs[i].part.end, k) && 1 <= l.entry <= |p.entries|
  {
  }
}
