/** Media segments as their players read them: from the moof box's runs, and the defaults of the
    initialization segment. */
module Mp4Fragments {
  import opened Base
  import opened BigEndian
  import opened BoxTree
  import opened SampleIndex
  import opened Segments
  import opened SampleTables
  import opened TrackRuns
  import opened Mp4Boxes
  import opened Mp4File
  import opened Mp4Serve
  import opened Mp4Reader
  import opened Mp4Tables
  import opened Mp4Lengths
  import opened Mp4Headers
  import opened Mp4Whole
  import EditList

  // -- data offsets ------------------------------------------------------------------------

  ghost predicate Below(rs: seq<Run>, limit: nat) {
    forall i | 0 <= i < |rs| :: rs[i].offset < limit
  }

  lemma BelowMore(rs: seq<Run>, r: Run, limit: nat)
    requires Below(rs, limit) && r.offset < limit
    ensures Below(rs + [r], limit) && (rs != [] ==> Below(rs[..|rs| - 1] + [r], limit))
  {
  }

  lemma BelowBoth(a: seq<Run>, b: seq<Run>, limit: nat)
    requires Below(a, limit) && Below(b, limit)
    ensures Below(a + b, limit)
  {
  }

  lemma BelowLast(rs: seq<Run>, limit: nat)
    requires rs != [] && Below(rs, limit)
    ensures rs[|rs| - 1].offset < limit && Below(rs[..|rs| - 1], limit)
  {
  }

  /** A run starts where one of its frames does. */
  lemma {:induction false} RunsOfBelow(fs: seq<It>, k: nat, pos: nat, limit: nat)
    requires k <= |fs| && pos + SizesIn(fs, 0, k) < limit
    ensures Below(RunsOf(fs, k, pos), limit)
  {
    hide Below;
    if k == 0 {
      BelowNone(limit);
    } else {
      RunsOfBelow(fs, k - 1, pos, limit);
      var rs, f := RunsOf(fs, k - 1, pos), fs[k - 1];
      if f.isKey || rs == [] {
        BelowMore(rs, Run(f.isKey, pos + SizesIn(fs, 0, k - 1), [SampleOf(f)]), limit);
      } else {
        var last := rs[|rs| - 1];
        BelowLast(rs, limit);
        BelowMore(rs, last.(samples := last.samples + [SampleOf(f)]), limit);
      }
    }
  }

  lemma BelowNone(limit: nat)
    ensures Below([], limit)
  {
  }

  lemma TrunsBelow(fs: seq<It>, pos: nat, end: int, limit: nat)
    requires fs != [] && |fs| < 0x1_0000 && Tabled(fs, 0) && fs[|fs| - 1].start <= end
    requires pos + SizesIn(fs, 0, |fs|) < limit
    ensures Below(TrunsSpec(fs, pos, end), limit)
  {
    assert Shown(fs, end, |fs| - 1) >= 0;
    hide RunsOf, Tabled, Below, RunFits, Shown;
    LastNotEmpty(fs, pos);
    RunsOfBelow(fs, |fs|, pos, limit);
    var rs := RunsOf(fs, |fs|, pos);
    BelowLast(rs, limit);
    BelowMore(rs, CutRun(rs[|rs| - 1], Shown(fs, end, |fs| - 1)), limit);
  }

  lemma {:induction false} BytesGrow(segs: seq<Seg>, j: nat, k: nat)
    requires j <= k <= |segs|
    ensures CountBytes(segs, j) <= CountBytes(segs, k)
  {
    if j < k {
      BytesGrow(segs, j, k - 1);
    }
  }

  lemma {:induction false} AllBelow(p: Params, k: nat, pos: nat, limit: nat)
    requires ParamsOk(p) && k <= |p.segs| && pos + CountBytes(p.segs, k) < limit
    ensures Below(TrunsAll(p, k, pos), limit)
  {
    hide ParamsOk, Below, TrunsSpec, Tabled, RunFits;
    if k == 0 {
      BelowNone(limit);
    } else {
      AllBelow(p, k - 1, pos, limit);
      SegReady(p, k - 1);
      SegData(p, k - 1);
      TrunsBelow(p.segs[k - 1].frames, pos + CountBytes(p.segs, k - 1), p.segs[k - 1].part.end, limit);
      BelowBoth(TrunsAll(p, k - 1, pos), SegRuns(p, k - 1, pos), limit);
    }
  }

  lemma SegData(p: Params, i: nat)
    requires ParamsOk(p) && i < |p.segs|
    ensures |p.segs[i].data| == SizesIn(p.segs[i].frames, 0, |p.segs[i].frames|)
  {
    assert SegOk(p.segs[i]);
  }

  // -- reading the runs back ---------------------------------------------------------------

  function AllAsRead(rs: seq<Run>): (ts: seq<Trun>)
    ensures |ts| == |rs|
  {
    seq(|rs|, i requires 0 <= i < |rs| => AsRead(rs[i]))
  }

  lemma AsReadFront(rs: seq<Run>)
    requires rs != []
    ensures AllAsRead(rs) == AllAsRead(rs[..|rs| - 1]) + [AsRead(rs[|rs| - 1])]
    ensures AllAsRead(rs)[..|rs| - 1] == AllAsRead(rs[..|rs| - 1])
  {
  }

  lemma ReadRunsMore(traf: seq<Tree>, r: Run)
    requires RunFits(r)
    ensures ReadRuns(traf + [Leaf(TRUN, RunBody(r))]) == ReadRuns(traf) + [AsRead(r)]
  {
    hide RunBody, ReadRun, RunFits, AsRead;
    RunBack(r);
    assert (traf + [Leaf(TRUN, RunBody(r))])[..|traf|] == traf;
  }

  lemma {:induction false} ReadRunsBack(traf: seq<Tree>, rs: seq<Run>)
    requires RunsFit(rs)
    ensures ReadRuns(traf + RunTrees(rs)) == ReadRuns(traf) + AllAsRead(rs)
    decreases |rs|
  {
    hide RunBody, ReadRuns, RunFits, AsRead;
    if rs == [] {
      assert traf + [] == traf && ReadRuns(traf) + AllAsRead(rs) == ReadRuns(traf);
    } else {
      var front, last := rs[..|rs| - 1], rs[|rs| - 1];
      FrontFits(rs);
      AsReadFront(rs);
      ReadRunsBack(traf, front);
      ReadRunsMore(traf + RunTrees(front), last);
      assert traf + RunTrees(rs) == (traf + RunTrees(front)) + [Leaf(TRUN, RunBody(last))];
      assert ReadRuns(traf) + AllAsRead(front) + [AsRead(last)] == ReadRuns(traf) + AllAsRead(rs);
    }
  }

  lemma HeaderHasNoRuns()
    ensures ReadRuns([Leaf(TFHD, [0, 2, 0, 0, 0, 0, 0, 1]), Leaf(TFDT, ZERO4 + ZERO4)]) == []
  {
    HeadersDiffer();
    var a, b := Leaf(TFHD, [0, 2, 0, 0, 0, 0, 0, 1]), Leaf(TFDT, ZERO4 + ZERO4);
    assert [a, b][..1] == [a] && [a][..0] == [];
    assert ReadRuns([a]) == ReadRuns([]);
  }

  lemma TrafFound(p: Params, pos: nat)
    requires ParamsOk(p)
    ensures Traf(FileTrees(p, MediaSegment, None, pos)) == TrafKids(p, pos)
  {
    HeadersDiffer();
    hide ParamsOk, TrafKids, DataAll, Child, Inside;
    ChildIs(FileTrees(p, MediaSegment, None, pos), 0, MOOF);
    ChildIs(MoofTree(p, pos).kids, 1, TRAF);
  }

  // -- which samples are sync samples ------------------------------------------------------

  /** Whether each sample of a run is a sync sample: the first of a key frame's run. */
  function RunSyncs(r: Run, k: nat): (b: seq<bool>)
    requires k <= |r.samples|
    ensures |b| == k
  {
    if k == 0 then [] else RunSyncs(r, k - 1) + [k == 1 && r.key]
  }

  ghost function Syncs(rs: seq<Run>): seq<bool> {
    if rs == [] then [] else Syncs(rs[..|rs| - 1]) + RunSyncs(rs[|rs| - 1], |rs[|rs| - 1].samples|)
  }

  ghost function KeyFlags(fs: seq<It>, k: nat): (b: seq<bool>)
    requires k <= |fs|
    ensures |b| == k
  {
    if k == 0 then [] else KeyFlags(fs, k - 1) + [fs[k - 1].isKey]
  }

  lemma {:induction false} KeyFlagAt(fs: seq<It>, k: nat, n: nat)
    requires k < n <= |fs|
    ensures KeyFlags(fs, n)[k] == fs[k].isKey
    decreases n
  {
    if k < n - 1 {
      KeyFlagAt(fs, k, n - 1);
    }
  }

  lemma {:induction false} SameSyncs(a: Run, b: Run, k: nat)
    requires a.key == b.key && k <= |a.samples| && k <= |b.samples|
    ensures RunSyncs(a, k) == RunSyncs(b, k)
  {
    if k > 0 {
      SameSyncs(a, b, k - 1);
    }
  }

  lemma {:induction false} SyncsLast(rs: seq<Run>, r: Run)
    ensures Syncs(rs + [r]) == Syncs(rs) + RunSyncs(r, |r.samples|)
  {
    assert (rs + [r])[..|rs|] == rs;
  }

  ghost predicate NoneEmpty(rs: seq<Run>) {
    forall i | 0 <= i < |rs| :: rs[i].samples != []
  }

  lemma NoneEmptyAtFirst()
    ensures NoneEmpty([])
  {
  }

  lemma NoneEmptyMore(rs: seq<Run>, r: Run, s: Sample)
    requires NoneEmpty(rs)
    ensures var more := r.(samples := r.samples + [s]);
            NoneEmpty(rs + [more]) && (rs != [] ==> rs[|rs| - 1].samples != [] && NoneEmpty(rs[..|rs| - 1] + [more]))
  {
  }

  /** Each run starts with its only key frame, if it has one. */
  lemma {:induction false} SyncsAreKeys(fs: seq<It>, k: nat, pos: nat)
    requires k <= |fs|
    ensures Syncs(RunsOf(fs, k, pos)) == KeyFlags(fs, k)
    ensures NoneEmpty(RunsOf(fs, k, pos))
  {
    hide Syncs, SizesIn, NoneEmpty;
    if k == 0 {
      NoSyncs();
      NoneEmptyAtFirst();
    } else {
      SyncsAreKeys(fs, k - 1, pos);
      var rs, f := RunsOf(fs, k - 1, pos), fs[k - 1];
      NoneEmptyMore(rs, if f.isKey || rs == [] then Run(f.isKey, pos + SizesIn(fs, 0, k - 1), []) else rs[|rs| - 1], SampleOf(f));
      if f.isKey || rs == [] {
        var r := Run(f.isKey, pos + SizesIn(fs, 0, k - 1), [SampleOf(f)]);
        assert [] + [SampleOf(f)] == [SampleOf(f)];
        SyncsLast(rs, r);
        assert RunSyncs(r, 1) == [f.isKey];
      } else {
        var front, last := rs[..|rs| - 1], rs[|rs| - 1];
        var more := last.(samples := last.samples + [SampleOf(f)]);
        SyncsLast(front, last);
        SyncsLast(front, more);
        SameSyncs(last, more, |last.samples|);
        assert front + [last] == rs;
        assert Syncs(front) + (RunSyncs(last, |last.samples|) + [false]) == Syncs(rs) + [false];
      }
    }
  }

  lemma NoSyncs()
    ensures Syncs([]) == []
  {
  }

  lemma {:induction false} CutSyncs(rs: seq<Run>, duration: nat)
    requires rs != [] && rs[|rs| - 1].samples != []
    ensures Syncs(CutLast(rs, duration)) == Syncs(rs)
  {
    hide Syncs;
    var front, last := rs[..|rs| - 1], rs[|rs| - 1];
    SyncsLast(front, last);
    SyncsLast(front, CutRun(last, duration));
    SameSyncs(last, CutRun(last, duration), |last.samples|);
    assert front + [last] == rs;
  }

  lemma {:induction false} SyncsBoth(a: seq<Run>, b: seq<Run>)
    ensures Syncs(a + b) == Syncs(a) + Syncs(b)
    decreases |b|
  {
    hide Syncs, RunSyncs;
    if b == [] {
      NoSyncs();
      assert a + b == a && Syncs(a) + [] == Syncs(a);
    } else {
      var front, last := b[..|b| - 1], b[|b| - 1];
      SyncsBoth(a, front);
      SyncsLast(a + front, last);
      SyncsLast(front, last);
      assert (a + front) + [last] == a + b && front + [last] == b;
      assert Syncs(a) + Syncs(front) + RunSyncs(last, |last.samples|) == Syncs(a) + (Syncs(front) + RunSyncs(last, |last.samples|));
    }
  }

  ghost function AllKeyFlags(p: Params, k: nat): (b: seq<bool>)
    requires k <= |p.segs|
    ensures |b| == CountFrames(p.segs, k)
  {
    if k == 0 then [] else AllKeyFlags(p, k - 1) + KeyFlags(p.segs[k - 1].frames, |p.segs[k - 1].frames|)
  }

  lemma {:induction false} AllKeyFlagAt(p: Params, i: nat, k: nat, n: nat)
    requires i < n <= |p.segs| && k < |p.segs[i].frames|
    ensures CountFrames(p.segs, i) + k < CountFrames(p.segs, n)
    ensures AllKeyFlags(p, n)[CountFrames(p.segs, i) + k] == p.segs[i].frames[k].isKey
    decreases n
  {
    FramesGrow(p.segs, i + 1, n);
    KeyFlagAt(p.segs[i].frames, k, |p.segs[i].frames|);
    if i < n - 1 {
      AllKeyFlagAt(p, i, k, n - 1);
    }
  }

  lemma {:induction false} AllSyncs(p: Params, k: nat, pos: nat)
    requires ParamsOk(p) && k <= |p.segs|
    ensures Syncs(TrunsAll(p, k, pos)) == AllKeyFlags(p, k)
  {
    hide ParamsOk, Syncs, SegRuns, KeyFlags;
    if k == 0 {
      NoSyncs();
    } else {
      AllSyncs(p, k - 1, pos);
      SegSyncs(p, k - 1, pos);
      SyncsBoth(TrunsAll(p, k - 1, pos), SegRuns(p, k - 1, pos));
    }
  }

  lemma SegSyncs(p: Params, i: nat, pos: nat)
    requires ParamsOk(p) && i < |p.segs|
    ensures Syncs(SegRuns(p, i, pos)) == KeyFlags(p.segs[i].frames, |p.segs[i].frames|)
  {
    hide ParamsOk, Syncs, KeyFlags, RunsOf, Tabled, RunFits;
    var fs := p.segs[i].frames;
    SegReady(p, i);
    SegTabled(p, i);
    LastNotEmpty(fs, pos + CountBytes(p.segs, i));
    SyncsAreKeys(fs, |fs|, pos + CountBytes(p.segs, i));
    CutSyncs(RunsOf(fs, |fs|, pos + CountBytes(p.segs, i)), Shown(fs, p.segs[i].part.end, |fs| - 1));
  }

  // -- what a player makes of the runs -----------------------------------------------------

  /** The defaults that the initialization segment's trex gives: above all, no sync sample. */
  ghost predicate NoneSync(d: Defaults) {
    !IsSync(d.flags)
  }

  function Together(ps: seq<Place>, b: seq<bool>): (r: seq<Placed>)
    requires |ps| == |b|
    ensures |r| == |ps|
  {
    seq(|ps|, i requires 0 <= i < |ps| => Placed(ps[i].pos, ps[i].size, ps[i].duration, b[i]))
  }

  lemma {:induction false} RunPlacesLength(r: Run, k: nat)
    requires k <= |r.samples|
    ensures |RunPlaces(r, k)| == k
  {
    if k > 0 {
      RunPlacesLength(r, k - 1);
    }
  }

  lemma FirstFlags()
    ensures IsSync(FIRST_FLAGS)
  {
  }

  /** One run as read: its samples are where the run has them. */
  lemma {:induction false} TrunSamplesAre(r: Run, d: Defaults, k: nat)
    requires k <= |r.samples| && NoneSync(d)
    ensures |RunPlaces(r, k)| == k && TrunSizes(AsRead(r), d, k) == SampleSizes(r, k)
    ensures TrunSamples(AsRead(r), d, r.offset, k) == Together(RunPlaces(r, k), RunSyncs(r, k))
  {
    hide IsSync;
    RunPlacesLength(r, k);
    FirstFlags();
    if k > 0 {
      TrunSamplesAre(r, d, k - 1);
    }
  }

  /** The offsets a player reads are the runs'. */
  ghost predicate OffsetsFit(rs: seq<Run>, signed: bool) {
    Below(rs, if signed then 0x8000_0000 else 0x1_0000_0000)
  }

  lemma {:induction false} SamplesAre(rs: seq<Run>, d: Defaults, signed: bool)
    requires OffsetsFit(rs, signed) && NoneSync(d)
    ensures |Places(rs)| == |Syncs(rs)|
    ensures SamplesOf(AllAsRead(rs), d, 0, signed) == Together(Places(rs), Syncs(rs))
    decreases |rs|
  {
    hide TrunSamples, RunPlaces, RunSyncs, NoneSync, SamplesAsRead;
    if rs != [] {
      var front, last, n := rs[..|rs| - 1], rs[|rs| - 1], |rs[|rs| - 1].samples|;
      BelowLast(rs, if signed then 0x8000_0000 else 0x1_0000_0000);
      SamplesAre(front, d, signed);
      AsReadFront(rs);
      TrunSamplesAre(last, d, n);
      assert LastStart(AllAsRead(rs), d, 0, signed) == last.offset;
      assert Together(Places(front), Syncs(front)) + Together(RunPlaces(last, n), RunSyncs(last, n)) == Together(Places(rs), Syncs(rs));
    }
  }

  /** A player that reads an offset as signed is right exactly below 2 GiB. */
  lemma SignedOffset(offset: nat)
    requires offset < 0x1_0000_0000
    ensures OffsetOf(offset % 0x1_0000_0000, false) == offset
    ensures OffsetOf(offset % 0x1_0000_0000, true) == offset <==> offset < 0x8000_0000
  {
  }

  // -- the boxes ---------------------------------------------------------------------------

  lemma TfhdFound(p: Params, pos: nat)
    requires ParamsOk(p)
    ensures BodyOf(TrafKids(p, pos), TFHD) == [0, 2, 0, 0, 0, 0, 0, 1]
  {
    hide ParamsOk, RunTrees, TrunsAll, Child, BodyOf;
    ChildIs(TrafKids(p, pos), 0, TFHD);
  }

  lemma TfdtFound(p: Params, pos: nat)
    requires ParamsOk(p)
    ensures BodyOf(TrafKids(p, pos), TFDT) == ZERO4 + ZERO4
  {
    assert TFHD[2] != TFDT[2];
    hide ParamsOk, RunTrees, TrunsAll, Child, BodyOf;
    ChildIs(TrafKids(p, pos), 1, TFDT);
  }

  /** The fragment overrides none of the defaults, and these say: no sync sample. */
  lemma DefaultsAre(tfhd: Bytes)
    requires tfhd == [0, 2, 0, 0, 0, 0, 0, 1]
    ensures NoneSync(DefaultsOf(tfhd, TrexBody())) && BaseOf(tfhd) == 0
  {
    assert Word(tfhd, 0) == 0x2_0000;
    assert Word(TrexBody(), 20) == 0x921_0000;
  }

  /** From the boxes of a media segment a player computes every frame's place and whether it is a key
      frame, in order. */
  lemma FragmentIs(p: Params, pos: nat, signed: bool)
    requires ParamsOk(p) && pos + CountBytes(p.segs, |p.segs|) < if signed then 0x8000_0000 else 0x1_0000_0000
    ensures |AllPlaces(p, |p.segs|, pos)| == |AllKeyFlags(p, |p.segs|)|
    ensures FragmentSamples(FileTrees(p, MediaSegment, None, pos), TrexBody(), signed)
            == Together(AllPlaces(p, |p.segs|, pos), AllKeyFlags(p, |p.segs|))
  {
    var rs := TrunsAll(p, |p.segs|, pos);
    AllBelow(p, |p.segs|, pos, if signed then 0x8000_0000 else 0x1_0000_0000);
    hide ParamsOk, FileTrees, RunFits, Below, Places, ReadRuns, AllPlaces, TrunsAll, RunTrees, Traf, Syncs, AllKeyFlags, NoneSync, SamplesOf, DefaultsOf, BaseOf, TrexBody, BodyOf, AllAsRead;
    TrafFound(p, pos);
    TfhdFound(p, pos);
    DefaultsAre([0, 2, 0, 0, 0, 0, 0, 1]);
    HeaderHasNoRuns();
    ReadRunsBack([Leaf(TFHD, [0, 2, 0, 0, 0, 0, 0, 1]), Leaf(TFDT, ZERO4 + ZERO4)], rs);
    assert [] + AllAsRead(rs) == AllAsRead(rs);
    SamplesAre(rs, DefaultsOf([0, 2, 0, 0, 0, 0, 0, 1], TrexBody()), signed);
    MediaPlaces(p, |p.segs|, pos);
    AllSyncs(p, |p.segs|, pos);
  }

  lemma TrexFound(p: Params, edits: Option<seq<EditList.Entry>>, pos: nat)
    requires ParamsOk(p) && p.entries != []
    ensures Trex(FileTrees(p, InitSegment, edits, pos)) == TrexBody()
  {
    assert MVHD[2] != MVEX[2] && TRAK[0] != MVEX[0];
    MoovFound(p, InitSegment, edits, pos);
    var kids := MoovTree(p, edits, true, pos).kids;
    hide ParamsOk, FileTrees, TrakKids, MvhdBody, TrexBody, Child, Inside, BodyOf, Stbl, Trak;
    ChildIs(kids, 2, MVEX);
    ChildIs(kids[2].kids, 0, TREX);
  }

  /** What a player takes from a track's initialization segment: the trex box, the media's time scale and
      the track's number. */
  lemma InitRead(q: Params, edits: Option<seq<EditList.Entry>>, pos: nat, first: nat)
    requires BuildDone(q, InitSegment, edits, pos, first) && Short(q, InitSegment, edits, pos)
    ensures var file := FileBytes(q, InitSegment, edits, first);
            match Parse(file, 0, |file|)
            case None => false
            case Some(init) =>
              Trex(init) == TrexBody() && ScaleOf(Mdhd(init)) == 90000 && Word(BodyOf(Trak(init), TKHD), 12) == 1
  {
    hide ParamsOk, FileTrees, FileBytes, Parse, Short, TkhdTree, BodyOf, Trak, Trex, Mdhd, ScaleOf, EditList.EditsOk, Word, TrexBody;
    TrueFile(q, InitSegment, edits, pos, first);
    TrexFound(q, edits, first);
    TimesFound(q, InitSegment, edits, first);
    HeadersFound(q, InitSegment, edits, first);
    TkhdFields(q);
  }

  /** What a player finds of frame k of segment i, given the boxes of the file and of an initialization
      segment: its bytes, how long it is shown, in units of 1/90000 s, and whether it is a key frame. */
  ghost predicate FrameFound(p: Params, i: nat, k: nat, boxes: seq<Tree>, init: seq<Tree>, signed: bool, file: Bytes)
    requires i < |p.segs| && k < |p.segs[i].frames|
  {
    var samples, n := FragmentSamples(boxes, Trex(init), signed), CountFrames(p.segs, i) + k;
    && |samples| == CountFrames(p.segs, |p.segs|) && n < |samples|
    && SampleAt(p.segs[i], k, file, samples[n].pos) && samples[n].size == p.segs[i].frames[k].bytes
    && Ticks(samples[n].duration, ScaleOf(Mdhd(init))) == Shown(p.segs[i].frames, p.segs[i].part.end, k)
    && samples[n].sync == p.segs[i].frames[k].isKey
  }

  /** The fragment is of the track that the initialization segment describes, and starts at time 0. */
  ghost predicate SameTrack(boxes: seq<Tree>, init: seq<Tree>) {
    var track := Word(BodyOf(Trak(init), TKHD), 12);
    && Word(BodyOf(Traf(boxes), TFHD), 4) == track && Word(Trex(init), 4) == track
    && Word(BodyOf(Traf(boxes), TFDT), 0) == 0 && Word(BodyOf(Traf(boxes), TFDT), 4) == 0
  }

  lemma BodiesRead(tfhd: Bytes, tfdt: Bytes)
    requires tfhd == [0, 2, 0, 0, 0, 0, 0, 1] && tfdt == ZERO4 + ZERO4
    ensures Word(tfhd, 4) == 1 && Word(TrexBody(), 4) == 1 && Word(tfdt, 0) == 0 && Word(tfdt, 4) == 0
  {
  }

  /** In the media segment a build makes, a player that reads the trun boxes, with any initialization
      segment a build makes, finds every frame. A player that takes data offsets as signed does so for
      files of less than 2 GiB. */
  lemma MediaSample(p: Params, pos: nat, first: nat, i: nat, k: nat, signed: bool,
                    q: Params, edits: Option<seq<EditList.Entry>>, qpos: nat, qfirst: nat)
    requires BuildDone(p, MediaSegment, None, pos, first) && i < |p.segs| && k < |p.segs[i].frames|
    requires signed ==> |FileBytes(p, MediaSegment, None, pos)| < 0x8000_0000
    requires BuildDone(q, InitSegment, edits, qpos, qfirst) && Short(q, InitSegment, edits, qpos)
    ensures var file, start := FileBytes(p, MediaSegment, None, first), FileBytes(q, InitSegment, edits, qfirst);
            match (Parse(file, 0, |file|), Parse(start, 0, |start|))
            case (Some(boxes), Some(init)) => SameTrack(boxes, init) && FrameFound(p, i, k, boxes, init, signed, file)
            case _ => false
  {
    assert Short(p, MediaSegment, None, pos);
    hide ParamsOk, Parse, FileTrees, FileBytes, SizesIn, Short, SampleAt, SameTrack, FrameFound, EditList.EditsOk, Trex, Mdhd, ScaleOf, Trak, BodyOf, Word, TrexBody;
    TrueFile(p, MediaSegment, None, pos, first);
    InitRead(q, edits, qpos, qfirst);
    SampleIsThere(p, MediaSegment, None, pos, first, i, k);
    var start := FileBytes(q, InitSegment, edits, qfirst);
    FragmentReads(p, first, i, k, Parse(start, 0, |start|).value, signed, FileBytes(p, MediaSegment, None, first));
  }

  lemma FragmentReads(p: Params, pos: nat, i: nat, k: nat, init: seq<Tree>, signed: bool, file: Bytes)
    requires ParamsOk(p) && pos + CountBytes(p.segs, |p.segs|) < (if signed then 0x8000_0000 else 0x1_0000_0000)
    requires i < |p.segs| && k < |p.segs[i].frames|
    requires Trex(init) == TrexBody() && ScaleOf(Mdhd(init)) == 90000 && Word(BodyOf(Trak(init), TKHD), 12) == 1
    requires SampleAt(p.segs[i], k, file, pos + CountBytes(p.segs, i) + SizesIn(p.segs[i].frames, 0, k))
    ensures var boxes := FileTrees(p, MediaSegment, None, pos);
            SameTrack(boxes, init) && FrameFound(p, i, k, boxes, init, signed, file)
  {
    hide ParamsOk, FileTrees, SampleAt, SizesIn, FragmentSamples, Shown, TrexBody, Trex, Mdhd, ScaleOf, Ticks, BodyOf, Traf, Trak, Word, TrafKids;
    TrafFound(p, pos);
    TfhdFound(p, pos);
    TfdtFound(p, pos);
    BodiesRead([0, 2, 0, 0, 0, 0, 0, 1], ZERO4 + ZERO4);
    SampleIs(p, pos, i, k, signed);
  }

  lemma SampleIs(p: Params, pos: nat, i: nat, k: nat, signed: bool)
    requires ParamsOk(p) && pos + CountBytes(p.segs, |p.segs|) < (if signed then 0x8000_0000 else 0x1_0000_0000)
    requires i < |p.segs| && k < |p.segs[i].frames|
    ensures var samples, n := FragmentSamples(FileTrees(p, MediaSegment, None, pos), TrexBody(), signed), CountFrames(p.segs, i) + k;
            && |samples| == CountFrames(p.segs, |p.segs|) && n < |samples|
            && samples[n].pos == pos + CountBytes(p.segs, i) + SizesIn(p.segs[i].frames, 0, k)
            && samples[n].size == p.segs[i].frames[k].bytes && samples[n].sync == p.segs[i].frames[k].isKey
            && samples[n].duration == Shown(p.segs[i].frames, p.segs[i].part.end, k)
            && Ticks(samples[n].duration, 90000) == samples[n].duration
  {
    hide ParamsOk, FileTrees, SizesIn, AllPlaces, AllKeyFlags, FragmentSamples, Shown, TrexBody, Ticks;
    FragmentIs(p, pos, signed);
    PlaceAt(p, i, k, |p.segs|, pos);
    AllKeyFlagAt(p, i, k, |p.segs|);
    TicksSame(AllPlaces(p, |p.segs|, pos)[CountFrames(p.segs, i) + k].duration);
  }
}
