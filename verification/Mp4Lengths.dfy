/** Lengths of built .mp4 files: they do not depend on the offsets in the file, so the position of the
    first sample can be found before the offsets are rendered; and how long the metadata can get. */
module Mp4Lengths {
  import opened Base
  import opened BigEndian
  import opened BoxTree
  import opened SampleIndex
  import opened Segments
  import opened SampleTables
  import opened TrackRuns
  import opened Mp4Boxes
  import opened Mp4File
  import opened Mp4Serve
  import opened Mp4Tables
  import EditList

  // -- lengths do not depend on offsets ----------------------------------------------------

  ghost predicate SameShape(a: seq<Run>, b: seq<Run>) {
    |a| == |b| && forall i | 0 <= i < |a| :: SameRun(a[i], b[i])
  }

  ghost predicate SameRun(a: Run, b: Run) {
    a.key == b.key && |a.samples| == |b.samples|
  }

  lemma {:induction false} RunsOfShape(fs: seq<It>, k: nat, pos: nat, pos2: nat)
    requires k <= |fs|
    ensures SameShape(RunsOf(fs, k, pos), RunsOf(fs, k, pos2))
  {
    hide SizesIn, SameShape, SameRun;
    if k == 0 {
      NoShape();
    } else {
      RunsOfShape(fs, k - 1, pos, pos2);
      var a, b, f := RunsOf(fs, k - 1, pos), RunsOf(fs, k - 1, pos2), fs[k - 1];
      ShapeLast(a, b);
      if f.isKey || a == [] {
        var r, s := Run(f.isKey, pos + SizesIn(fs, 0, k - 1), [SampleOf(f)]), Run(f.isKey, pos2 + SizesIn(fs, 0, k - 1), [SampleOf(f)]);
        SameRuns(r, s);
        ShapeMore(a, b, r, s);
      } else {
        var r, s := a[|a| - 1], b[|b| - 1];
        SameRunMore(r, s, SampleOf(f));
        ShapeMore(a, b, r.(samples := r.samples + [SampleOf(f)]), s.(samples := s.samples + [SampleOf(f)]));
      }
    }
  }

  lemma NoShape()
    ensures SameShape([], [])
  {
  }

  lemma ShapeLast(a: seq<Run>, b: seq<Run>)
    requires SameShape(a, b)
    ensures |a| == |b| && (a != [] ==> SameRun(a[|a| - 1], b[|b| - 1]))
  {
  }

  lemma SameRuns(r: Run, s: Run)
    requires r.key == s.key && |r.samples| == |s.samples|
    ensures SameRun(r, s)
  {
  }

  lemma SameRunMore(r: Run, s: Run, x: Sample)
    requires SameRun(r, s)
    ensures SameRun(r.(samples := r.samples + [x]), s.(samples := s.samples + [x]))
  {
  }

  /** One more run, or another last one. */
  lemma ShapeMore(a: seq<Run>, b: seq<Run>, r: Run, s: Run)
    requires SameShape(a, b) && SameRun(r, s)
    ensures |a| == |b| && SameShape(a + [r], b + [s])
    ensures a != [] ==> SameShape(a[..|a| - 1] + [r], b[..|b| - 1] + [s])
  {
    hide SameRun;
  }

  lemma CutShape(a: seq<Run>, b: seq<Run>, duration: nat)
    requires SameShape(a, b) && a != [] && a[|a| - 1].samples != [] && b != [] && b[|b| - 1].samples != []
    ensures SameShape(CutLast(a, duration), CutLast(b, duration))
  {
    hide SameShape;
    ShapeLast(a, b);
    var r, s := CutRun(a[|a| - 1], duration), CutRun(b[|b| - 1], duration);
    SameRuns(r, s);
    ShapeMore(a, b, r, s);
  }

  lemma LastNotEmpty(fs: seq<It>, pos: nat)
    requires fs != [] && |fs| < 0x1_0000 && Tabled(fs, 0)
    ensures var rs := RunsOf(fs, |fs|, pos); rs != [] && rs[|rs| - 1].samples != []
  {
    hide RunsOf, Tabled, AllSmall;
    RunsSmall(fs, |fs|, pos);
    SmallAt(RunsOf(fs, |fs|, pos), |fs|, |RunsOf(fs, |fs|, pos)| - 1);
  }

  lemma TrunsShape(fs: seq<It>, pos: nat, pos2: nat, end: int)
    requires fs != [] && |fs| < 0x1_0000 && Tabled(fs, 0) && fs[|fs| - 1].start <= end
    ensures SameShape(TrunsSpec(fs, pos, end), TrunsSpec(fs, pos2, end))
  {
    var duration := Shown(fs, end, |fs| - 1);
    assert duration >= 0;
    hide RunsOf, Tabled, SameShape, CutLast, Shown, RunFits;
    LastNotEmpty(fs, pos);
    LastNotEmpty(fs, pos2);
    RunsOfShape(fs, |fs|, pos, pos2);
    CutShape(RunsOf(fs, |fs|, pos), RunsOf(fs, |fs|, pos2), duration);
  }

  lemma SegRunsShape(p: Params, i: nat, pos: nat, pos2: nat)
    requires ParamsOk(p) && i < |p.segs|
    ensures SameShape(SegRuns(p, i, pos), SegRuns(p, i, pos2))
  {
    hide ParamsOk, Tabled, SameShape, TrunsSpec, RunFits;
    SegReady(p, i);
    TrunsShape(p.segs[i].frames, pos + CountBytes(p.segs, i), pos2 + CountBytes(p.segs, i), p.segs[i].part.end);
  }

  lemma {:induction false} TrunsAllShape(p: Params, k: nat, pos: nat, pos2: nat)
    requires ParamsOk(p) && k <= |p.segs|
    ensures SameShape(TrunsAll(p, k, pos), TrunsAll(p, k, pos2))
  {
    hide ParamsOk, SegRuns, SameRun;
    if k > 0 {
      TrunsAllShape(p, k - 1, pos, pos2);
      SegRunsShape(p, k - 1, pos, pos2);
    }
  }

  lemma {:induction false} RunTreesLength(a: seq<Run>, b: seq<Run>)
    requires RunsFit(a) && RunsFit(b) && SameShape(a, b)
    ensures |RunTrees(a)| == |RunTrees(b)| == |a| && forall i | 0 <= i < |a| :: SameLength(RunTrees(a)[i], RunTrees(b)[i])
  {
    hide RunBody, SameLength, RunFits;
    if a != [] {
      var n := |a| - 1;
      FrontFits(a);
      FrontFits(b);
      RunTreesLength(a[..n], b[..n]);
      assert SameRun(a[n], b[n]);
      RunBodyLength(a[n], b[n]);
      SameLeaf(TRUN, RunBody(a[n]), RunBody(b[n]));
    }
  }

  lemma RunBodyLength(a: Run, b: Run)
    requires RunFits(a) && RunFits(b) && SameRun(a, b)
    ensures |RunBody(a)| == |RunBody(b)|
  {
  }

  lemma TrafLength(p: Params, pos: nat, pos2: nat)
    requires ParamsOk(p)
    ensures SameLength(Node(TRAF, TrafKids(p, pos)), Node(TRAF, TrafKids(p, pos2)))
  {
    hide ParamsOk, TrunsAll, SameLength, RunTrees, SameShape, RunFits;
    var a, b := TrunsAll(p, |p.segs|, pos), TrunsAll(p, |p.segs|, pos2);
    TrunsAllShape(p, |p.segs|, pos, pos2);
    RunTreesLength(a, b);
    var k, l := TrafKids(p, pos), TrafKids(p, pos2);
    forall i | 0 <= i < |k| ensures SameLength(k[i], l[i]) {
      if i < 2 {
        SameTree(k[i]);
      } else {
        assert k[i] == RunTrees(a)[i - 2] && l[i] == RunTrees(b)[i - 2];
      }
    }
    SameNode(TRAF, k, l);
  }

  lemma MoofLength(p: Params, pos: nat, pos2: nat)
    requires ParamsOk(p)
    ensures SameLength(MoofTree(p, pos), MoofTree(p, pos2))
  {
    hide ParamsOk, TrafKids, SameLength;
    TrafLength(p, pos, pos2);
    SameTree(Leaf(MFHD, ZERO4 + U32(1)));
    SameNode(MOOF, MoofTree(p, pos).kids, MoofTree(p, pos2).kids);
  }

  /** The whole file is as long wherever its offsets point. */
  lemma FileLength(p: Params, t: FileType, edits: Option<seq<EditList.Entry>>, pos: nat, pos2: nat)
    requires ParamsOk(p) && (t != MediaSegment ==> p.entries != [])
    ensures |FileBytes(p, t, edits, pos)| == |FileBytes(p, t, edits, pos2)|
  {
    hide ParamsOk, MoovTree, MoofTree, DataAll, SameLength;
    var a, b := FileTrees(p, t, edits, pos), FileTrees(p, t, edits, pos2);
    SameTree(a[0]);
    SameTree(a[|a| - 1]);
    if t == MediaSegment {
      MoofLength(p, pos, pos2);
    } else {
      MoovLength(p, edits, t == InitSegment, pos, pos2);
    }
    forall i | 0 <= i < |a| ensures SameLength(a[i], b[i]) {
    }
    SameLengths(a, b);
  }

  // -- the file as it is served ------------------------------------------------------------

  /** A build done with offsets from any position says as much of the file whose offsets are rendered
      from the true position of the first sample, and that file parses as its boxes. */
  lemma TrueFile(p: Params, t: FileType, edits: Option<seq<EditList.Entry>>, pos: nat, first: nat)
    requires BuildDone(p, t, edits, pos, first) && Short(p, t, edits, pos)
    ensures |FileBytes(p, t, edits, first)| == |FileBytes(p, t, edits, pos)|
    ensures BuildDone(p, t, edits, first, first)
    ensures var file := FileBytes(p, t, edits, first); Parse(file, 0, |file|) == Some(FileTrees(p, t, edits, first))
  {
    hide ParamsOk, TypeOk, FileTrees, SerializeAll, Parse;
    assert t != MediaSegment ==> p.entries != [] by {
      HasEntries(p, t, edits);
    }
    FileLength(p, t, edits, pos, first);
    ShortAnywhere(p, t, edits, pos, first);
    FileParses(p, t, edits, first, FileBytes(p, t, edits, first));
  }

  lemma HasEntries(p: Params, t: FileType, edits: Option<seq<EditList.Entry>>)
    requires TypeOk(p, t, edits)
    ensures t != MediaSegment ==> p.entries != []
  {
  }

  lemma ShortAnywhere(p: Params, t: FileType, edits: Option<seq<EditList.Entry>>, pos: nat, pos2: nat)
    requires ParamsOk(p) && (t != MediaSegment ==> p.entries != []) && Short(p, t, edits, pos)
    ensures Short(p, t, edits, pos2)
  {
    hide ParamsOk, MoovTree, Serialize;
    if t != MediaSegment {
      MoovLength(p, edits, t == InitSegment, pos, pos2);
      LengthsSame(MoovTree(p, edits, t == InitSegment, pos), MoovTree(p, edits, t == InitSegment, pos2));
    }
  }

  lemma LengthsSame(a: Tree, b: Tree)
    requires SameLength(a, b)
    ensures |Serialize(a)| == |Serialize(b)|
  {
  }

  // -- how long the metadata can get -------------------------------------------------------

  lemma LeafSize(kind: Kind, body: Bytes)
    ensures |Serialize(Leaf(kind, body))| == 4 + |kind| + |body|
  {
    BoxedLength(kind, body);
  }

  lemma NodeSize(kind: Kind, kids: seq<Tree>)
    ensures |Serialize(Node(kind, kids))| == 4 + |kind| + Size(kids)
  {
    BoxedLength(kind, SerializeAll(kids));
  }

  ghost function Size(ts: seq<Tree>): nat {
    |SerializeAll(ts)|
  }

  lemma SizeOne(t: Tree)
    ensures Size([t]) == |Serialize(t)|
  {
    hide Serialize;
    SerializeMore([], t);
    assert [] + [t] == [t];
    SerializeNone();
  }

  lemma SizeBoth(a: seq<Tree>, b: seq<Tree>)
    ensures Size(a + b) == Size(a) + Size(b)
  {
    SerializeBoth(a, b);
  }

  lemma SizeNone()
    ensures Size([]) == 0
  {
  }

  lemma SizeTwo(a: Tree, b: Tree)
    ensures Size([a, b]) == |Serialize(a)| + |Serialize(b)|
  {
    hide Serialize, Size;
    SizeOne(a);
    SizeOne(b);
    SizeBoth([a], [b]);
    assert [a] + [b] == [a, b];
  }

  lemma SizeThree(a: Tree, b: Tree, c: Tree)
    ensures Size([a, b, c]) == |Serialize(a)| + |Serialize(b)| + |Serialize(c)|
  {
    hide Serialize, Size;
    SizeOne(a);
    SizeOne(b);
    SizeOne(c);
    SizeBoth([a], [b]);
    SizeBoth([a] + [b], [c]);
    assert [a] + [b] + [c] == [a, b, c];
  }

  lemma {:induction false} FewerSegments(segs: seq<Seg>, k: nat)
    requires k <= |segs| && forall i | 0 <= i < |segs| :: SegOk(segs[i])
    ensures k <= CountFrames(segs, k)
  {
    hide Tabled;
    if k > 0 {
      FewerSegments(segs, k - 1);
      assert SegOk(segs[k - 1]);
    }
  }

  lemma StblSize(p: Params, init: bool, pos: nat)
    requires ParamsOk(p)
    ensures |Serialize(Node(STBL, StblKids(p, init, pos)))| <= |EntriesAll(p.entries, |p.entries|)| + 36 * CountFrames(p.segs, |p.segs|) + 108
  {
    hide ParamsOk, Serialize, SerializeAll, Size, EntriesAll, SttsAll, Stsc, StszAll, Co64, StssAll, U32;
    var k := StblKids(p, init, pos);
    StblParts(p, pos);
    SizeThree(k[0], k[1], k[2]);
    SizeOne(k[3]);
    SizeOne(k[4]);
    SizeBoth(k[..3], [k[3]]);
    SizeBoth(k[..3] + [k[3]], [k[4]]);
    assert k[..3] == [k[0], k[1], k[2]] && k[..3] + [k[3]] + [k[4]] == k[..5];
    if init {
      SizeNone();
    } else {
      SizeOne(k[5]);
    }
    SizeBoth(k[..5], k[5..]);
    assert k[..5] + k[5..] == k && k[5..] == if init then [] else [k[5]];
    NodeSize(STBL, k);
  }

  lemma StblParts(p: Params, pos: nat)
    requires ParamsOk(p)
    ensures |Serialize(StsdTree(p))| == 16 + |EntriesAll(p.entries, |p.entries|)|
    ensures |Serialize(SttsTree(p))| == 16 + 8 * CountFrames(p.segs, |p.segs|)
    ensures |Serialize(StscTree(p))| <= 16 + 12 * CountFrames(p.segs, |p.segs|)
    ensures |Serialize(StszTree(p))| == 20 + 4 * CountFrames(p.segs, |p.segs|)
    ensures |Serialize(Co64Tree(p, pos))| <= 16 + 8 * CountFrames(p.segs, |p.segs|)
    ensures |Serialize(StssTree(p))| <= 16 + 4 * CountFrames(p.segs, |p.segs|)
  {
    var n := |p.segs|;
    FewerSegments(p.segs, n);
    SttsLength(p, n);
    StszLength(p, n);
    StssLength(p, n);
    KeysBelowFrames(p.segs, n);
    LeafTypes();
    hide ParamsOk, Serialize, EntriesAll, SttsAll, StszAll, StssAll, U32, SegOk;
    LeafSize(STSD, StsdTree(p).body);
    LeafSize(STTS, SttsTree(p).body);
    LeafSize(STSC, StscTree(p).body);
    LeafSize(STSZ, StszTree(p).body);
    LeafSize(CO64, Co64Tree(p, pos).body);
    LeafSize(STSS, StssTree(p).body);
  }

  lemma DurationBound(p: Params)
    requires ParamsOk(p)
    ensures 0 <= Duration(p) < 0x1_0000_0000_0000_0000 && p.creation < 0x1_0000_0000
  {
  }

  lemma MdiaSize(p: Params, init: bool, pos: nat)
    requires ParamsOk(p)
    ensures |Serialize(Node(MDIA, MdiaKids(p, init, pos)))| <= |EntriesAll(p.entries, |p.entries|)| + 36 * CountFrames(p.segs, |p.segs|) + 300
  {
    LeafTypes();
    StaticBoxes();
    MinfBoxes();
    StblSize(p, init, pos);
    DurationBound(p);
    hide ParamsOk, Serialize, SerializeAll, Size, StblKids, EntriesAll, U32, U64;
    SizeThree(VmhdTree(), DinfTree(), Node(STBL, StblKids(p, init, pos)));
    NodeSize(MINF, MinfKids(p, init, pos));
    LeafSize(MDHD, MdhdBody(p));
    SizeThree(Leaf(MDHD, MdhdBody(p)), HdlrTree(), Node(MINF, MinfKids(p, init, pos)));
    NodeSize(MDIA, MdiaKids(p, init, pos));
  }

  lemma EdtsSize(es: seq<EditList.Entry>)
    ensures |Serialize(EdtsTree(es))| == 24 + 20 * |es|
  {
    ElstLength(es, |es|);
    LeafTypes();
    hide Serialize, SerializeAll, Size, ElstEntries, U32;
    var elst := VERSION1 + U32(|es| % 0x1_0000_0000) + ElstEntries(es, |es|);
    LeafSize(ELST, elst);
    SizeOne(Leaf(ELST, elst));
    NodeSize(EDTS, [Leaf(ELST, elst)]);
  }

  lemma TkhdSize(p: Params)
    requires ParamsOk(p) && p.entries != []
    ensures p.creation < 0x1_0000_0000
    ensures |Serialize(TkhdTree(p))| <= 200
  {
    LeafTypes();
    EntriesOk(p);
    hide ParamsOk, Serialize, U32, MaxSize;
    LeafSize(TKHD, TkhdTree(p).body);
  }

  lemma FewEdits(p: Params, edits: Option<seq<EditList.Entry>>)
    requires ParamsOk(p) && EditList.EditsOk(Parts(p.segs), edits)
    ensures edits.Some? ==> |edits.value| <= CountFrames(p.segs, |p.segs|) + 1
  {
    assert |Parts(p.segs)| == |p.segs|;
    FewerSegments(p.segs, |p.segs|);
  }

  lemma TrakSize(p: Params, edits: Option<seq<EditList.Entry>>, init: bool, pos: nat)
    requires ParamsOk(p) && p.entries != [] && EditList.EditsOk(Parts(p.segs), edits)
    ensures |Serialize(Node(TRAK, TrakKids(p, edits, init, pos)))| <= |EntriesAll(p.entries, |p.entries|)| + 56 * CountFrames(p.segs, |p.segs|) + 600
  {
    FewEdits(p, edits);
    MdiaSize(p, init, pos);
    TrakTotal(p, edits, init, pos);
    hide ParamsOk, Serialize, SerializeAll, Size, TrakKids, EntriesAll, EditList.EditsOk, CountFrames;
    NodeSize(TRAK, TrakKids(p, edits, init, pos));
  }

  lemma TrakTotal(p: Params, edits: Option<seq<EditList.Entry>>, init: bool, pos: nat)
    requires ParamsOk(p) && p.entries != []
    ensures Size(TrakKids(p, edits, init, pos)) <=
              |Serialize(Node(MDIA, MdiaKids(p, init, pos)))| + 224 + (if edits.Some? then 20 * |edits.value| else 0)
  {
    TkhdSize(p);
    hide ParamsOk, Serialize, SerializeAll, Size, MdiaKids, TkhdTree, EdtsTree;
    var mdia := Node(MDIA, MdiaKids(p, init, pos));
    match edits {
      case Some(es) =>
        EdtsSize(es);
        SizeThree(TkhdTree(p), EdtsTree(es), mdia);
        assert TrakKids(p, edits, init, pos) == [TkhdTree(p), EdtsTree(es), mdia];
      case None =>
        SizeTwo(TkhdTree(p), mdia);
        assert TrakKids(p, edits, init, pos) == [TkhdTree(p), mdia];
    }
  }

  lemma MvexSize()
    ensures |Serialize(Node(MVEX, [Leaf(TREX, TrexBody())]))| == 40
  {
    LeafTypes();
    hide Serialize, SerializeAll, Size;
    LeafSize(TREX, TrexBody());
    SizeOne(Leaf(TREX, TrexBody()));
    NodeSize(MVEX, [Leaf(TREX, TrexBody())]);
  }

  lemma MvhdSize(p: Params)
    requires ParamsOk(p)
    ensures p.creation < 0x1_0000_0000 && 0 <= Duration(p) < 0x1_0000_0000_0000_0000
    ensures |Serialize(Leaf(MVHD, MvhdBody(p)))| <= 200
  {
    LeafTypes();
    DurationBound(p);
    hide ParamsOk, Serialize, U32, U64;
    LeafSize(MVHD, MvhdBody(p));
  }

  /** With up to 56 bytes a frame, the metadata of any file of fewer than 76 million frames is short. */
  lemma FewFramesAreShort(p: Params, t: FileType, edits: Option<seq<EditList.Entry>>, pos: nat)
    requires ParamsOk(p) && TypeOk(p, t, edits)
    requires |EntriesAll(p.entries, |p.entries|)| + 56 * CountFrames(p.segs, |p.segs|) + 1000 < 0x1_0000_0000
    ensures Short(p, t, edits, pos)
  {
    hide ParamsOk, Serialize, EditList.EditsOk, EntriesAll, CountFrames, MoovTree, TrakKids;
    if t != MediaSegment {
      var init := t == InitSegment;
      TrakSize(p, edits, init, pos);
      MoovTotal(p, edits, init, pos);
    }
  }

  lemma MoovTotal(p: Params, edits: Option<seq<EditList.Entry>>, init: bool, pos: nat)
    requires ParamsOk(p) && p.entries != []
    ensures |Serialize(MoovTree(p, edits, init, pos))| <= |Serialize(Node(TRAK, TrakKids(p, edits, init, pos)))| + 248
  {
    MvhdSize(p);
    MvexSize();
    hide ParamsOk, Serialize, SerializeAll, Size, TrakKids, MvhdBody, TrexBody;
    var mvhd, trak := Leaf(MVHD, MvhdBody(p)), Node(TRAK, TrakKids(p, edits, init, pos));
    var kids := MoovTree(p, edits, init, pos).kids;
    if init {
      SizeThree(mvhd, trak, Node(MVEX, [Leaf(TREX, TrexBody())]));
      assert kids == [mvhd, trak, Node(MVEX, [Leaf(TREX, TrexBody())])];
    } else {
      SizeTwo(mvhd, trak);
      assert kids == [mvhd, trak];
    }
    NodeSize(MOOV, kids);
  }
}
