/** What a built .mp4 plays: exactly the requested ranges of its segments. */
module Mp4Plays {
  import opened Base
  import opened BigEndian
  import opened BoxTree
  import opened SampleIndex
  import opened Segments
  import opened SampleTables
  import opened TrackRuns
  import opened Mp4Boxes
  import opened Mp4File
  import opened Mp4Serve
  import opened Mp4Reader
  import opened Mp4Tables
  import opened Mp4Lengths
  import opened Mp4Headers
  import EditList

  // -- segments ----------------------------------------------------------------------------

  /** A segment as `Segment::new` makes it: the frames `[b, e)` of a recording that the requested range
      selects, their sample data, and the range. */
  ghost predicate MadeBy(s: Seg, row: Row, data: Bytes, its: seq<It>, seg: Segment, b: nat, e: nat, atKey: bool) {
    && Indexed(row, data, its) && 0 <= s.part.start <= s.part.end <= row.mediaDuration
    && Selected(its, s.part.start, StopAt(row, s.part.end), atKey, b, e) && Holds(seg, its, b, e)
    && s.frames == its[b..e] && s.part.actualStart == ActualStart(seg) && |s.data| == FileRange(seg).1 - FileRange(seg).0
  }

  ghost predicate Made(s: Seg) {
    exists row, data, its, seg, b: nat, e: nat, atKey :: MadeBy(s, row, data, its, seg, b, e, atKey)
  }

  ghost predicate AllMade(segs: seq<Seg>) {
    forall i | 0 <= i < |segs| :: Made(segs[i])
  }

  lemma MadeFits(s: Seg)
    requires Made(s)
    ensures SegOk(s) && EditList.Sane(s.part) && s.part.end - s.part.actualStart < 0x8000_0000
    ensures SumShown(s.frames, s.part.end, |s.frames|) == s.part.end - s.part.actualStart
  {
    hide Walk, Selected, SegOk, Advance;
    var row, data, its, seg, b: nat, e: nat, atKey :| MadeBy(s, row, data, its, seg, b, e, atKey);
    assert s.part == EditList.Part(ActualStart(seg), s.part.start, s.part.end);
    SegmentFits(row, data, its, seg, b, e, s.part.start, s.part.end, atKey, s);
  }

  lemma {:induction false} TrackBound(segs: seq<Seg>, k: nat)
    requires k <= |segs| && AllMade(segs)
    ensures EditList.TrackTime(Parts(segs), k) <= 0x8000_0000 * k
  {
    hide Made;
    if k > 0 {
      TrackBound(segs, k - 1);
      MadeFits(segs[k - 1]);
      assert Parts(segs)[k - 1] == segs[k - 1].part;
    }
  }

  lemma MadeTrack(segs: seq<Seg>, k: nat)
    requires k <= |segs| && AllMade(segs)
    ensures EditList.AllSane(Parts(segs)) && EditList.TrackTime(Parts(segs), k) == SttsTime(segs, k)
  {
    hide Made;
    forall i | 0 <= i < |segs|
      ensures EditList.Sane(Parts(segs)[i]) && SumShown(segs[i].frames, segs[i].part.end, |segs[i].frames|) == segs[i].part.end - segs[i].part.actualStart
    {
      MadeFits(segs[i]);
    }
    TrackTimeIsStts(segs, k);
  }

  /** Parameters made of such segments are fit to build from, given room for their totals. */
  lemma MadeParams(p: Params)
    requires AllMade(p.segs)
    requires forall i | 0 <= i < |p.segs| :: exists j :: 0 <= j < |p.entries| && p.entries[j].id == p.segs[i].entry
    requires CountFrames(p.segs, |p.segs|) + 1 < 0x1_0000_0000 && |p.entries| < 0x1_0000_0000 && p.creation < 0x1_0000_0000
    requires forall j | 0 <= j < |p.entries| :: p.entries[j].width < 0x1_0000 && p.entries[j].height < 0x1_0000
    ensures ParamsOk(p)
  {
    hide Made, SegOk;
    forall i | 0 <= i < |p.segs| ensures SegOk(p.segs[i]) {
      MadeFits(p.segs[i]);
    }
    FewerSegments(p.segs, |p.segs|);
    MadeTrack(p.segs, |p.segs|);
    TrackBound(p.segs, |p.segs|);
    EditList.RequestedLength(Parts(p.segs), |p.segs|);
    EditList.TrackLength(Parts(p.segs), |p.segs|);
  }

  /** What was asked for, on the track as the file's own boxes have it: of each segment, from where its
      first frame starts, the requested range, in units of 1/90000 s. */
  ghost function AskedOn(segs: seq<Seg>, file: seq<Tree>, i: nat): seq<int>
    requires i <= |segs| && EditList.AllSane(Parts(segs))
  {
    if i == 0 then []
    else
      var part := Parts(segs)[i - 1];
      assert EditList.Sane(part);
      AskedOn(segs, file, i - 1)
      + EditList.Units(SampleTime(file, CountFrames(segs, i - 1)) + (part.start - part.actualStart), part.end - part.start)
  }

  /** The boxes that give sample times. */
  ghost predicate TimesOf(p: Params, file: seq<Tree>)
    requires ParamsOk(p)
  {
    BodyOf(Stbl(file), STTS) == SttsTree(p).body && ScaleOf(Mdhd(file)) == 90000
  }

  lemma SegmentTime(p: Params, file: seq<Tree>, i: nat)
    requires ParamsOk(p) && TimesOf(p, file) && i <= |p.segs| && AllMade(p.segs)
    ensures SampleTime(file, CountFrames(p.segs, i)) == EditList.TrackTime(Parts(p.segs), i)
  {
    hide ParamsOk, AllMade, SttsAll, Stbl, Mdhd, BodyOf, ScaleOf, Ticks, SttsTime, StartOf;
    MadeTrack(p.segs, i);
    SegmentStart(p, i);
    TicksSame(StartOf(SttsTree(p).body, CountFrames(p.segs, i)));
  }

  lemma {:induction false} AskedIs(p: Params, file: seq<Tree>, i: nat)
    requires ParamsOk(p) && i <= |p.segs| && AllMade(p.segs) && TimesOf(p, file)
    ensures EditList.AllSane(Parts(p.segs))
    ensures AskedOn(p.segs, file, i) == EditList.Requested(Parts(p.segs), i)
  {
    hide ParamsOk, AllMade, EditList.Units, SampleTime, TimesOf, Parts, EditList.AllSane, CountFrames;
    MadeTrack(p.segs, i);
    if i > 0 {
      AskedIs(p, file, i - 1);
      SegmentTime(p, file, i - 1);
    }
  }

  lemma EditsFit(p: Params, es: seq<EditList.Entry>)
    requires ParamsOk(p) && AllMade(p.segs) && EditList.EditsOk(Parts(p.segs), Some(es))
    ensures |es| < 0x1_0000_0000 && Fit64(es)
  {
    FewerSegments(p.segs, |p.segs|);
    TrackBound(p.segs, |p.segs|);
    hide ParamsOk, AllMade;
    assert |Parts(p.segs)| == |p.segs|;
    forall i | 0 <= i < |es| ensures es[i].duration < 0x1_0000_0000_0000_0000 && es[i].mediaTime < 0x1_0000_0000_0000_0000 {
      assert EditList.Touches(es[i]) <= EditList.TrackTime(Parts(p.segs), |Parts(p.segs)|);
    }
  }

  lemma NoEditsFound(p: Params, init: bool, pos: nat)
    requires ParamsOk(p) && p.entries != []
    ensures ReadEdits(TrakKids(p, None, init, pos)) == None
  {
    TrakDiffer();
    TrakBoxes(p, None, init, pos);
    hide ParamsOk, Child, MdiaKids, TrakKids;
    NoChild(TrakKids(p, None, init, pos), EDTS);
  }

  lemma ElstFound(es: seq<EditList.Entry>)
    requires |es| < 0x1_0000_0000 && Fit64(es)
    ensures EdtsTree(es).Node? && var elst := BodyOf(EdtsTree(es).kids, ELST); EditsIn(elst, Word(elst, 4)) == es && NormalSpeed(elst)
  {
    hide Child, BodyOf, ElstEntries, Word, EditsIn, U32, Fit64, NormalSpeed;
    RatesAre(es);
    ChildIs(EdtsTree(es).kids, 0, ELST);
    EditsBack(es, |es|);
    EditCount(es);
    assert es[..|es|] == es;
  }

  lemma EditsFound(p: Params, es: seq<EditList.Entry>, init: bool, pos: nat)
    requires ParamsOk(p) && p.entries != [] && |es| < 0x1_0000_0000 && Fit64(es)
    ensures ReadEdits(TrakKids(p, Some(es), init, pos)) == Some(es)
    ensures NormalSpeed(BodyOf(Inside(TrakKids(p, Some(es), init, pos), EDTS), ELST))
  {
    TrakDiffer();
    TrakBoxes(p, Some(es), init, pos);
    ElstFound(es);
    hide ParamsOk, Child, Inside, BodyOf, MdiaKids, TrakKids, EdtsTree, Word, EditsIn;
    ChildIs(TrakKids(p, Some(es), init, pos), 1, EDTS);
  }

  lemma SampleCount(p: Params)
    requires ParamsOk(p)
    ensures Word(StszTree(p).body, 8) == CountFrames(p.segs, |p.segs|)
  {
    hide ParamsOk, Word, StszAll, U32;
    Counts32(p);
    SizeCountIs(CountFrames(p.segs, |p.segs|), StszAll(p, |p.segs|), 0);
  }

  lemma InTicksSame(es: seq<EditList.Entry>)
    ensures InTicks(es, 90000, 90000) == es
  {
  }

  lemma BoxTimes(p: Params, t: FileType, edits: Option<seq<EditList.Entry>>, pos: nat)
    requires ParamsOk(p) && p.entries != [] && t != MediaSegment
    ensures TimesOf(p, FileTrees(p, t, edits, pos))
  {
    hide ParamsOk, FileTrees, StblKids, TrakKids, SttsTree, Stbl, Trak, Mdhd, BodyOf, ScaleOf;
    BoxesFound(p, t, edits, pos);
    TablesFound(p, t == InitSegment, pos);
    TimesFound(p, t, edits, pos);
  }

  /** What the boxes play is what was asked for, on the track's own table of durations. */
  lemma BoxesPlay(p: Params, t: FileType, edits: Option<seq<EditList.Entry>>, pos: nat)
    requires ParamsOk(p) && TypeOk(p, t, edits) && t != MediaSegment && AllMade(p.segs)
    ensures EditList.AllSane(Parts(p.segs))
    ensures var file := FileTrees(p, t, edits, pos);
            MoviePlays(file) == AskedOn(p.segs, file, |p.segs|) == EditList.Requested(Parts(p.segs), |p.segs|)
  {
    var init, file := t == InitSegment, FileTrees(p, t, edits, pos);
    assert |Parts(p.segs)| == |p.segs|;
    hide ParamsOk, AllMade, FileTrees, TrakKids, StblKids, StszTree, Parts, EditList.Units, AskedOn, EditList.Played, Word, Stbl, Trak, BodyOf, ReadEdits, SampleTime, TimesOf, Mvhd, Mdhd, ScaleOf;
    BoxesFound(p, t, edits, pos);
    TablesFound(p, init, pos);
    BoxTimes(p, t, edits, pos);
    TimesFound(p, t, edits, pos);
    AskedIs(p, file, |p.segs|);
    match edits {
      case Some(es) =>
        EditsFit(p, es);
        EditsFound(p, es, init, pos);
        InTicksSame(es);
      case None =>
        NoEditsFound(p, init, pos);
        SampleCount(p);
        SegmentTime(p, file, |p.segs|);
    }
  }

  /** The movie, and every edit of the file if it has any, plays at the normal rate. */
  ghost predicate AtNormalSpeed(file: seq<Tree>) {
    RateOf(Mvhd(file)) == 0x1_0000 && (ReadEdits(Trak(file)).Some? ==> NormalSpeed(BodyOf(Inside(Trak(file), EDTS), ELST)))
  }

  lemma BoxesAtNormalSpeed(p: Params, t: FileType, edits: Option<seq<EditList.Entry>>, pos: nat)
    requires ParamsOk(p) && TypeOk(p, t, edits) && t != MediaSegment && AllMade(p.segs)
    ensures AtNormalSpeed(FileTrees(p, t, edits, pos))
  {
    hide ParamsOk, AllMade, FileTrees, TrakKids, Trak, BodyOf, ReadEdits, NormalSpeed, Inside, Stbl, Mvhd, Mdhd, RateOf;
    BoxesFound(p, t, edits, pos);
    TimesFound(p, t, edits, pos);
    match edits {
      case Some(es) =>
        EditsFit(p, es);
        EditsFound(p, es, t == InitSegment, pos);
      case None => NoEditsFound(p, t == InitSegment, pos);
    }
  }

  /** The file a build makes plays, in units of 1/90000 s and at the normal rate, exactly the requested
      ranges, in order, on the track that its own stts and time scale describe. Its movie and media
      headers say how long that is, and the low 32 bits of it stand in its track header. */
  lemma PlaysRequested(p: Params, t: FileType, edits: Option<seq<EditList.Entry>>, pos: nat, first: nat)
    requires BuildDone(p, t, edits, pos, first) && Short(p, t, edits, pos) && t != MediaSegment && AllMade(p.segs)
    ensures EditList.AllSane(Parts(p.segs))
    ensures var file := FileBytes(p, t, edits, first);
            match Parse(file, 0, |file|)
            case None => false
            case Some(boxes) =>
              && MoviePlays(boxes) == AskedOn(p.segs, boxes, |p.segs|) && AtNormalSpeed(boxes)
              && MovieDuration(boxes) == MdhdDuration(boxes) == |MoviePlays(boxes)|
              && TrackDuration(boxes) == |MoviePlays(boxes)| % 0x1_0000_0000
  {
    assert |Parts(p.segs)| == |p.segs|;
    hide ParamsOk, AllMade, FileTrees, FileBytes, Parse, Parts, AskedOn, MoviePlays, Short, AtNormalSpeed, MovieDuration, MdhdDuration, TrackDuration;
    TrueFile(p, t, edits, pos, first);
    BoxesPlay(p, t, edits, first);
    BoxesAtNormalSpeed(p, t, edits, first);
    TimesFound(p, t, edits, first);
    EditList.RequestedLength(Parts(p.segs), |p.segs|);
  }

  /** The track of such a file is an enabled video track, as large as its largest sample entry. */
  lemma TrackIsVideo(p: Params, t: FileType, edits: Option<seq<EditList.Entry>>, pos: nat, first: nat)
    requires BuildDone(p, t, edits, pos, first) && Short(p, t, edits, pos) && t != MediaSegment
    ensures var file := FileBytes(p, t, edits, first);
            match Parse(file, 0, |file|)
            case None => false
            case Some(boxes) =>
              && IsVideoTrack(boxes)
              && (forall j | 0 <= j < |p.entries| :: p.entries[j].width <= TrackSize(boxes).0 && p.entries[j].height <= TrackSize(boxes).1)
              && (exists j :: 0 <= j < |p.entries| && p.entries[j].width == TrackSize(boxes).0)
              && (exists j :: 0 <= j < |p.entries| && p.entries[j].height == TrackSize(boxes).1)
  {
    hide ParamsOk, FileTrees, FileBytes, Parse, Short, TkhdTree, BodyOf, Trak, EditList.EditsOk, Inside, MaxSize, Word;
    TrueFile(p, t, edits, pos, first);
    HeadersFound(p, t, edits, first);
    TkhdFields(p);
    HdlrFound(p, t, edits, first);
    HdlrWord();
    var i, j := LargestIsSome(p.entries, |p.entries|);
  }

  lemma HdlrFound(p: Params, t: FileType, edits: Option<seq<EditList.Entry>>, pos: nat)
    requires ParamsOk(p) && p.entries != [] && t != MediaSegment
    ensures BodyOf(Inside(Trak(FileTrees(p, t, edits, pos)), MDIA), HDLR) == HDLR_BODY
  {
    assert MDHD[0] != HDLR[0];
    BoxesFound(p, t, edits, pos);
    MdiaFound(p, edits, t == InitSegment, pos);
    hide ParamsOk, FileTrees, TrakKids, MdhdBody, MinfKids, Inside, BodyOf, Trak, Child, Stbl;
    ChildIs(MdiaKids(p, t == InitSegment, pos), 1, HDLR);
  }

  lemma HdlrWord()
    ensures Word(HDLR_BODY, 8) == 0x7669_6465 && Bit(7, 0x1)
  {
  }

  lemma {:induction false} LargestIsSome(entries: seq<VideoEntry>, k: nat) returns (i: nat, j: nat)
    requires 0 < k <= |entries|
    requires forall j | 0 <= j < |entries| :: entries[j].width < 0x1_0000 && entries[j].height < 0x1_0000
    ensures i < k && entries[i].width == MaxSize(entries, k).0
    ensures j < k && entries[j].height == MaxSize(entries, k).1
  {
    i, j := k - 1, k - 1;
    if k > 1 {
      var i0, j0 := LargestIsSome(entries, k - 1);
      if entries[k - 1].width < entries[i0].width {
        i := i0;
      }
      if entries[k - 1].height < entries[j0].height {
        j := j0;
      }
    }
  }
}
