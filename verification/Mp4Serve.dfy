/** What a built .mp4 is to its readers: well-nested boxes whose tables lead to the sample data, served
    by byte range. */
module Mp4Serve {
  import opened Base
  import opened BigEndian
  import opened BoxTree
  import opened Mp4Body
  import opened Mp4Boxes
  import opened Mp4File
  import opened SampleIndex
  import opened Segments
  import opened SampleTables
  import opened TrackRuns
  import EditList
  import S = Slices

  // -- well-nested boxes -------------------------------------------------------------------

  /** Four-byte types and containers exactly where they belong, all the way down. */
  ghost predicate Kinded(t: Tree) {
    && |t.kind| == 4
    && (if t.Node? then Container(t.kind) && forall i | 0 <= i < |t.kids| :: Kinded(t.kids[i]) else !Container(t.kind))
    && (t.Large? ==> |t.body| + 16 < 0x1_0000_0000_0000_0000)
  }

  lemma {:induction false} KidFits(ts: seq<Tree>, i: nat)
    requires i < |ts|
    ensures |Serialize(ts[i])| <= |SerializeAll(ts)|
    decreases |ts|
  {
    if i > 0 {
      KidFits(ts[1..], i - 1);
    }
  }

  /** A box whose length fits holds only boxes whose lengths fit. */
  lemma {:induction false} KindedFits(t: Tree)
    requires Kinded(t) && (t.Large? || |Serialize(t)| < 0x1_0000_0000)
    ensures Fits(t)
    decreases t
  {
    if t.Node? {
      NodeBytes(t.kind, t.kids);
      BoxedLength(t.kind, SerializeAll(t.kids));
      forall i | 0 <= i < |t.kids| ensures Fits(t.kids[i]) {
        assert Kinded(t.kids[i]);
        KidFits(t.kids, i);
        KindedFits(t.kids[i]);
      }
    }
  }

  ghost predicate AllKinded(ts: seq<Tree>) {
    forall i | 0 <= i < |ts| :: Kinded(ts[i])
  }

  lemma KindedMore(ts: seq<Tree>, t: Tree)
    requires AllKinded(ts) && Kinded(t)
    ensures AllKinded(ts + [t])
  {
    hide Kinded;
    forall i | 0 <= i < |ts + [t]| ensures Kinded((ts + [t])[i]) {
      if i < |ts| {
        assert (ts + [t])[i] == ts[i];
      }
    }
  }

  lemma KindedNone()
    ensures AllKinded([])
  {
  }

  lemma NodeKinded(kind: Kind, kids: seq<Tree>)
    requires |kind| == 4 && Container(kind) && AllKinded(kids)
    ensures Kinded(Node(kind, kids))
  {
  }

  lemma LeafKinded(kind: Kind, body: Bytes)
    requires |kind| == 4 && !Container(kind)
    ensures Kinded(Leaf(kind, body))
  {
  }

  /** The types of the leaf boxes are no containers. */
  lemma LeafTypes()
    ensures !Container(MDAT) && !Container(FTYP) && !Container(MVHD) && !Container(TKHD) && !Container(ELST)
    ensures !Container(MDHD) && !Container(HDLR) && !Container(VMHD) && !Container(DREF) && !Container(TREX)
    ensures !Container(STSD) && !Container(STTS) && !Container(STSC) && !Container(STSZ) && !Container(CO64) && !Container(STSS)
    ensures !Container(MFHD) && !Container(TFHD) && !Container(TFDT) && !Container(TRUN)
    ensures |MDAT| == |FTYP| == |MVHD| == |TKHD| == |ELST| == |MDHD| == |HDLR| == |VMHD| == |DREF| == |TREX| == 4
    ensures |STSD| == |STTS| == |STSC| == |STSZ| == |CO64| == |STSS| == |MFHD| == |TFHD| == |TFDT| == |TRUN| == 4
  {
    Differs([MDAT, FTYP, MVHD, TKHD, ELST, MDHD, HDLR, VMHD, DREF, TREX]);
    Differs([STSD, STTS, STSC, STSZ, CO64, STSS, MFHD, TFHD, TFDT, TRUN]);
  }

  lemma Differs(kinds: seq<Kind>)
    requires forall i | 0 <= i < |kinds| :: |kinds[i]| == 4 && LeafKind(kinds[i])
    ensures forall i | 0 <= i < |kinds| :: !Container(kinds[i])
  {
  }

  predicate LeafKind(kind: Kind)
    requires |kind| == 4
  {
    var (a, b, c, d) := (kind[0], kind[1], kind[2], kind[3]);
    && (a, b, c, d) != (0x6d, 0x6f, 0x6f, 0x76) && (a, b, c, d) != (0x74, 0x72, 0x61, 0x6b) && (a, b, c, d) != (0x65, 0x64, 0x74, 0x73)
    && (a, b, c, d) != (0x6d, 0x64, 0x69, 0x61) && (a, b, c, d) != (0x6d, 0x69, 0x6e, 0x66) && (a, b, c, d) != (0x64, 0x69, 0x6e, 0x66)
    && (a, b, c, d) != (0x73, 0x74, 0x62, 0x6c) && (a, b, c, d) != (0x6d, 0x76, 0x65, 0x78) && (a, b, c, d) != (0x6d, 0x6f, 0x6f, 0x66)
    && (a, b, c, d) != (0x74, 0x72, 0x61, 0x66)
  }

  lemma StblKinded(p: Params, init: bool, pos: nat)
    requires ParamsOk(p)
    ensures AllKinded(StblKids(p, init, pos))
  {
    LeafTypes();
    hide Kinded, ParamsOk, SttsAll, StszAll, StssAll, Stsc, Co64, EntriesAll;
    LeafKinded(STSD, StsdTree(p).body);
    LeafKinded(STTS, SttsTree(p).body);
    LeafKinded(STSC, StscTree(p).body);
    LeafKinded(STSZ, StszTree(p).body);
    LeafKinded(CO64, Co64Tree(p, pos).body);
    LeafKinded(STSS, StssTree(p).body);
  }

  lemma MdiaKinded(p: Params, init: bool, pos: nat)
    requires ParamsOk(p)
    ensures AllKinded(MdiaKids(p, init, pos))
  {
    LeafTypes();
    StblKinded(p, init, pos);
    hide Kinded, ParamsOk, StblKids, MdhdBody;
    LeafKinded(DREF, DREF_BODY);
    NodeKinded(DINF, [DrefTree()]);
    LeafKinded(VMHD, VMHD_BODY);
    NodeKinded(STBL, StblKids(p, init, pos));
    assert AllKinded([VmhdTree(), DinfTree(), Node(STBL, StblKids(p, init, pos))]);
    NodeKinded(MINF, MinfKids(p, init, pos));
    LeafKinded(HDLR, HDLR_BODY);
    LeafKinded(MDHD, MdhdBody(p));
  }

  lemma TrakKinded(p: Params, edits: Option<seq<EditList.Entry>>, init: bool, pos: nat)
    requires ParamsOk(p) && p.entries != []
    ensures AllKinded(TrakKids(p, edits, init, pos))
  {
    LeafTypes();
    MdiaKinded(p, init, pos);
    EntriesOk(p);
    hide Kinded, ParamsOk, MdiaKids, TkhdBody, ElstEntries, MaxSize;
    LeafKinded(TKHD, TkhdTree(p).body);
    NodeKinded(MDIA, MdiaKids(p, init, pos));
    if edits.Some? {
      LeafKinded(ELST, EdtsTree(edits.value).kids[0].body);
      NodeKinded(EDTS, EdtsTree(edits.value).kids);
    }
  }

  lemma MoovKinded(p: Params, edits: Option<seq<EditList.Entry>>, init: bool, pos: nat)
    requires ParamsOk(p) && p.entries != []
    ensures Kinded(MoovTree(p, edits, init, pos))
  {
    LeafTypes();
    TrakKinded(p, edits, init, pos);
    hide Kinded, ParamsOk, TrakKids, MvhdBody, TrexBody;
    NodeKinded(TRAK, TrakKids(p, edits, init, pos));
    LeafKinded(MVHD, MvhdBody(p));
    LeafKinded(TREX, TrexBody());
    NodeKinded(MVEX, [Leaf(TREX, TrexBody())]);
    NodeKinded(MOOV, MoovTree(p, edits, init, pos).kids);
  }

  lemma {:induction false} RunsKinded(rs: seq<Run>)
    requires RunsFit(rs)
    ensures AllKinded(RunTrees(rs))
  {
    hide Kinded, RunBody;
    KindedNone();
    if rs != [] {
      FrontFits(rs);
      LeafTypes();
      RunsKinded(rs[..|rs| - 1]);
      LeafKinded(TRUN, RunBody(rs[|rs| - 1]));
      KindedMore(RunTrees(rs[..|rs| - 1]), Leaf(TRUN, RunBody(rs[|rs| - 1])));
    }
  }

  lemma MoofKinded(p: Params, pos: nat)
    requires ParamsOk(p)
    ensures Kinded(MoofTree(p, pos))
  {
    LeafTypes();
    hide Kinded, ParamsOk, RunTrees, TrunsAll;
    RunsKinded(TrunsAll(p, |p.segs|, pos));
    LeafKinded(TFHD, [0, 2, 0, 0, 0, 0, 0, 1]);
    LeafKinded(TFDT, ZERO4 + ZERO4);
    NodeKinded(TRAF, TrafKids(p, pos));
    LeafKinded(MFHD, ZERO4 + U32(1));
    NodeKinded(MOOF, MoofTree(p, pos).kids);
  }

  /** The metadata is below 4 GiB. */
  ghost predicate Short(p: Params, t: FileType, edits: Option<seq<EditList.Entry>>, pos: nat)
    requires ParamsOk(p) && (t != MediaSegment ==> p.entries != [])
  {
    t != MediaSegment ==> |Serialize(MoovTree(p, edits, t == InitSegment, pos))| < 0x1_0000_0000
  }

  lemma FileKinded(p: Params, t: FileType, edits: Option<seq<EditList.Entry>>, pos: nat)
    requires ParamsOk(p) && TypeOk(p, t, edits) && |SerializeAll(FileTrees(p, t, edits, pos))| < 0x100_0000_0000
    ensures AllKinded(FileTrees(p, t, edits, pos))
  {
    LeafTypes();
    hide Kinded, ParamsOk, MoovTree, MoofTree, EditList.EditsOk, DataAll, SerializeAll, Serialize;
    LeafKinded(FTYP, FTYP_BODY);
    LeafKinded(FTYP, INIT_FTYP_BODY);
    LeafKinded(MDAT, DataAll(p.segs, |p.segs|));
    match t {
      case MediaSegment =>
        MoofKinded(p, pos);
      case InitSegment =>
        MoovKinded(p, edits, true, pos);
      case Normal =>
        MoovKinded(p, edits, false, pos);
        KidFits(FileTrees(p, t, edits, pos), 2);
        LargeKinded(MDAT, DataAll(p.segs, |p.segs|));
    }
  }

  lemma LargeKinded(kind: Kind, body: Bytes)
    requires |kind| == 4 && !Container(kind) && |Serialize(Large(kind, body))| < 0x100_0000_0000
    ensures Kinded(Large(kind, body))
  {
    BigLength(kind, body);
  }

  /** Top-level boxes other than the large sample data are short. */
  lemma FileLengths(p: Params, t: FileType, edits: Option<seq<EditList.Entry>>, pos: nat, i: nat)
    requires ParamsOk(p) && TypeOk(p, t, edits) && Short(p, t, edits, pos)
    requires i < |FileTrees(p, t, edits, pos)|
    requires t == MediaSegment ==> |SerializeAll(FileTrees(p, t, edits, pos))| <= 0xFFFF_FFFF
    ensures var tree := FileTrees(p, t, edits, pos)[i]; tree.Large? || |Serialize(tree)| < 0x1_0000_0000
  {
    hide ParamsOk, MoovTree, MoofTree, EditList.EditsOk, DataAll;
    StaticBoxes();
    KidFits(FileTrees(p, t, edits, pos), i);
  }

  /** A built file parses as its boxes: all lengths are exact and boxes nest and fill their places. */
  lemma FileParses(p: Params, t: FileType, edits: Option<seq<EditList.Entry>>, pos: nat, file: Bytes)
    requires ParamsOk(p) && TypeOk(p, t, edits) && Short(p, t, edits, pos)
    requires file == SerializeAll(FileTrees(p, t, edits, pos)) && |file| < 0x100_0000_0000
    requires t == MediaSegment ==> |file| <= 0xFFFF_FFFF
    ensures Parse(file, 0, |file|) == Some(FileTrees(p, t, edits, pos))
  {
    hide Fits, SerializeAll, Parse, FileTrees, ParamsOk, Short, EditList.EditsOk, FitAll;
    FileFits(p, t, edits, pos);
    assert file[0..0 + |file|] == file;
    ParseBack(file, 0, FileTrees(p, t, edits, pos));
  }

  lemma FileFits(p: Params, t: FileType, edits: Option<seq<EditList.Entry>>, pos: nat)
    requires ParamsOk(p) && TypeOk(p, t, edits) && Short(p, t, edits, pos)
    requires |SerializeAll(FileTrees(p, t, edits, pos))| < 0x100_0000_0000
    requires t == MediaSegment ==> |SerializeAll(FileTrees(p, t, edits, pos))| <= 0xFFFF_FFFF
    ensures FitAll(FileTrees(p, t, edits, pos))
  {
    hide Fits, Serialize, SerializeAll, Kinded, FileTrees, ParamsOk, Short, EditList.EditsOk;
    var trees := FileTrees(p, t, edits, pos);
    FileKinded(p, t, edits, pos);
    forall i | 0 <= i < |trees| ensures Fits(trees[i]) {
      FileLengths(p, t, edits, pos, i);
      KindedFits(trees[i]);
    }
  }

  lemma BigLength(kind: Kind, body: Bytes)
    ensures |Serialize(Large(kind, body))| == 12 + |kind| + |body|
  {
    assert |U32(1)| == 4 && |U64((16 + |body|) % 0x1_0000_0000_0000_0000)| == 8;
  }

  // -- where the first sample is -----------------------------------------------------------

  ghost predicate SameLength(a: Tree, b: Tree) {
    |Serialize(a)| == |Serialize(b)|
  }

  lemma {:induction false} SameLengths(a: seq<Tree>, b: seq<Tree>)
    requires |a| == |b| && forall i | 0 <= i < |a| :: SameLength(a[i], b[i])
    ensures |SerializeAll(a)| == |SerializeAll(b)|
    decreases |a|
  {
    if a != [] {
      forall i | 0 <= i < |a[1..]| ensures SameLength(a[1..][i], b[1..][i]) {
        assert SameLength(a[i + 1], b[i + 1]);
      }
      assert SameLength(a[0], b[0]);
      SameLengths(a[1..], b[1..]);
    }
  }

  lemma SameNode(kind: Kind, a: seq<Tree>, b: seq<Tree>)
    requires |a| == |b| && forall i | 0 <= i < |a| :: SameLength(a[i], b[i])
    ensures SameLength(Node(kind, a), Node(kind, b))
  {
    hide SameLength;
    SameLengths(a, b);
    NodeLength(kind, a);
    NodeLength(kind, b);
  }

  lemma NodeLength(kind: Kind, kids: seq<Tree>)
    ensures |Serialize(Node(kind, kids))| == 4 + |kind| + |SerializeAll(kids)|
    ensures forall t :: SameLength(Node(kind, kids), t) <==> |Serialize(t)| == 4 + |kind| + |SerializeAll(kids)|
  {
    BoxedLength(kind, SerializeAll(kids));
  }

  lemma SameLeaf(kind: Kind, a: Bytes, b: Bytes)
    requires |a| == |b|
    ensures SameLength(Leaf(kind, a), Leaf(kind, b))
  {
    BoxedLength(kind, a);
    BoxedLength(kind, b);
  }

  lemma SameTree(t: Tree)
    ensures SameLength(t, t)
  {
  }

  /** The length of the headers does not depend on the offsets in them, so the position of the first
      sample can be found before the offsets are rendered. */
  lemma MoovLength(p: Params, edits: Option<seq<EditList.Entry>>, init: bool, pos: nat, pos2: nat)
    requires ParamsOk(p) && p.entries != []
    ensures SameLength(MoovTree(p, edits, init, pos), MoovTree(p, edits, init, pos2))
  {
    hide SameLength, ParamsOk, TkhdTree, MvhdBody, EdtsTree, TrexBody, MdhdBody;
    forall t ensures SameLength(t, t) {
      SameTree(t);
    }
    StblLength(p, init, pos, pos2);
    SameNode(MINF, MinfKids(p, init, pos), MinfKids(p, init, pos2));
    SameNode(MDIA, MdiaKids(p, init, pos), MdiaKids(p, init, pos2));
    SameNode(TRAK, TrakKids(p, edits, init, pos), TrakKids(p, edits, init, pos2));
    SameNode(MOOV, MoovTree(p, edits, init, pos).kids, MoovTree(p, edits, init, pos2).kids);
  }

  lemma StblLength(p: Params, init: bool, pos: nat, pos2: nat)
    requires ParamsOk(p)
    ensures SameLength(Node(STBL, StblKids(p, init, pos)), Node(STBL, StblKids(p, init, pos2)))
  {
    hide SameLength, StsdTree, SttsTree, StscTree, StszTree, StssTree, ParamsOk;
    forall t ensures SameLength(t, t) {
      SameTree(t);
    }
    SameLeaf(CO64, Co64Tree(p, pos).body, Co64Tree(p, pos2).body);
    SameNode(STBL, StblKids(p, init, pos), StblKids(p, init, pos2));
  }

  // -- reading the tables ------------------------------------------------------------------

  lemma {:induction false} StszAllAt(p: Params, i: nat, n: nat)
    requires ParamsOk(p) && i < n <= |p.segs|
    ensures |StszAll(p, n)| == 4 * CountFrames(p.segs, n) && |StszAll(p, i)| == 4 * CountFrames(p.segs, i)
    ensures Tabled(p.segs[i].frames, 0)
    ensures At(StszAll(p, n), 4 * CountFrames(p.segs, i), Stsz(p.segs[i].frames, |p.segs[i].frames|))
    decreases n
  {
    hide ParamsOk, Stsz;
    StszLength(p, n);
    StszLength(p, i);
    SegTabled(p, i);
    SegTabled(p, n - 1);
    var piece := Stsz(p.segs[i].frames, |p.segs[i].frames|);
    if i < n - 1 {
      StszAllAt(p, i, n - 1);
      AtLonger(StszAll(p, n - 1), Stsz(p.segs[n - 1].frames, |p.segs[n - 1].frames|), 4 * CountFrames(p.segs, i), piece);
    } else {
      AtEnd(StszAll(p, i), piece);
    }
  }

  lemma {:induction false} StszLength(p: Params, n: nat)
    requires ParamsOk(p) && n <= |p.segs|
    ensures |StszAll(p, n)| == 4 * CountFrames(p.segs, n)
  {
    hide ParamsOk;
    if n > 0 {
      SegTabled(p, n - 1);
      StszLength(p, n - 1);
    }
  }

  lemma AtInside(data: Bytes, i: int, piece: Bytes, j: nat, x: Bytes)
    requires At(data, i, piece) && At(piece, j, x)
    ensures At(data, i + j, x)
  {
    var a, b := data[i + j..i + j + |x|], piece[j..j + |x|];
    assert |a| == |b| && forall k | 0 <= k < |a| :: a[k] == data[i..i + |piece|][j + k] == b[k];
  }

  /** The size of frame k of segment i stands at its place in stsz. */
  lemma SizeRead(p: Params, i: nat, k: nat)
    requires ParamsOk(p) && i < |p.segs| && k < |p.segs[i].frames|
    ensures var at := 4 * (CountFrames(p.segs, i) + k);
            at + 4 <= |StszAll(p, |p.segs|)| && Read32(StszAll(p, |p.segs|), at) == p.segs[i].frames[k].bytes
  {
    hide ParamsOk, Read32, U32, StszAll;
    StszAllAt(p, i, |p.segs|);
    SegTabled(p, i);
    var fs, at := p.segs[i].frames, 4 * CountFrames(p.segs, i);
    StszAt(fs, k, |fs|);
    AtInside(StszAll(p, |p.segs|), at, Stsz(fs, |fs|), 4 * k, U32(fs[k].bytes));
    Back32(StszAll(p, |p.segs|), at + 4 * k, fs[k].bytes);
  }

  lemma {:induction false} Co64At(segs: seq<Seg>, i: nat, n: nat, pos: nat)
    requires i < n <= |segs|
    ensures At(Co64(segs, n, pos), 8 * i, U64((pos + CountBytes(segs, i)) % 0x1_0000_0000_0000_0000))
    decreases n
  {
    hide U64;
    var last := U64((pos + CountBytes(segs, n - 1)) % 0x1_0000_0000_0000_0000);
    if i < n - 1 {
      Co64At(segs, i, n - 1, pos);
      AtLonger(Co64(segs, n - 1, pos), last, 8 * i, U64((pos + CountBytes(segs, i)) % 0x1_0000_0000_0000_0000));
    } else {
      AtEnd(Co64(segs, i, pos), last);
    }
  }

  lemma {:induction false} StscAt(p: Params, i: nat, n: nat)
    requires i < n <= |p.segs| < 0x1_0000_0000 && |p.entries| < 0x1_0000_0000
    ensures At(Stsc(p, n), 12 * i, StscEntry(p, i))
    decreases n
  {
    hide StscEntry;
    if i < n - 1 {
      StscAt(p, i, n - 1);
      AtLonger(Stsc(p, n - 1), StscEntry(p, n - 1), 12 * i, StscEntry(p, i));
    } else {
      AtEnd(Stsc(p, i), StscEntry(p, i));
    }
  }

  lemma {:induction false} DataAt(segs: seq<Seg>, i: nat, n: nat)
    requires i < n <= |segs|
    ensures At(DataAll(segs, n), CountBytes(segs, i), segs[i].data)
    decreases n
  {
    if i < n - 1 {
      DataAt(segs, i, n - 1);
      AtLonger(DataAll(segs, n - 1), segs[n - 1].data, CountBytes(segs, i), segs[i].data);
    } else {
      AtEnd(DataAll(segs, i), segs[i].data);
    }
  }

  lemma {:induction false} SizesGrow(fs: seq<SampleIndex.It>, j: nat, k: nat)
    requires j <= k <= |fs|
    ensures SizesIn(fs, 0, j) <= SizesIn(fs, 0, k)
  {
    if j < k {
      SizesGrow(fs, j, k - 1);
    }
  }

  lemma EntryFound(p: Params, i: nat)
    requires ParamsOk(p) && i < |p.segs|
    ensures |p.segs[i].frames| < 0x1_0000
    ensures var j := FindEntry(p.entries, p.segs[i].entry, 0);
            j.Some? && j.value < |p.entries| < 0x1_0000_0000 && p.entries[j.value].id == p.segs[i].entry
            && StscEntry(p, i) == U32(i + 1) + U32(|p.segs[i].frames|) + U32(j.value + 1)
  {
    hide U32;
    assert SegOk(p.segs[i]);
  }

  /** The chunk of segment i: its number, how many samples it has, and its sample entry. */
  lemma ChunkRead(p: Params, i: nat)
    requires ParamsOk(p) && i < |p.segs|
    ensures |p.segs| < 0x1_0000_0000 && |p.entries| < 0x1_0000_0000
    ensures var (stsc, at) := (Stsc(p, |p.segs|), 12 * i);
            && at + 12 <= |stsc| && Read32(stsc, at) == i + 1 && Read32(stsc, at + 4) == |p.segs[i].frames|
            && 1 <= Read32(stsc, at + 8) <= |p.entries| && p.entries[Read32(stsc, at + 8) - 1].id == p.segs[i].entry
  {
    EntryFound(p, i);
    StscAt(p, i, |p.segs|);
    hide U32, Read32, Stsc, StscEntry, FindEntry, ParamsOk;
    var stsc, frames, j := Stsc(p, |p.segs|), |p.segs[i].frames|, FindEntry(p.entries, p.segs[i].entry, 0).value;
    AtSplit(stsc, 12 * i, U32(i + 1) + U32(frames), U32(j + 1));
    AtSplit(stsc, 12 * i, U32(i + 1), U32(frames));
    Back32(stsc, 12 * i, i + 1);
    Back32(stsc, 12 * i + 4, frames);
    Back32(stsc, 12 * i + 8, j + 1);
  }

  lemma OffsetRead(segs: seq<Seg>, i: nat, pos: nat)
    requires i < |segs| && pos + CountBytes(segs, i) < 0x1_0000_0000_0000_0000
    ensures |Co64(segs, |segs|, pos)| == 8 * |segs| && Read64(Co64(segs, |segs|, pos), 8 * i) == pos + CountBytes(segs, i)
  {
    hide U64, Read64;
    Co64At(segs, i, |segs|, pos);
    Back64(Co64(segs, |segs|, pos), 8 * i, pos + CountBytes(segs, i));
  }

  /** Frame k's bytes stand in the file at the given place. */
  ghost predicate SampleAt(s: Seg, k: nat, file: Bytes, at: int)
    requires k < |s.frames|
  {
    var start := SizesIn(s.frames, 0, k);
    start + s.frames[k].bytes <= |s.data| && At(file, at, s.data[start..start + s.frames[k].bytes])
  }

  lemma SliceAt(data: Bytes, i: nat, j: nat)
    requires i <= j <= |data|
    ensures At(data, i, data[i..j])
  {
  }

  lemma DataSample(p: Params, i: nat, k: nat, file: Bytes, pos: nat)
    requires ParamsOk(p) && i < |p.segs| && k < |p.segs[i].frames|
    requires At(file, pos, DataAll(p.segs, |p.segs|))
    ensures pos + CountBytes(p.segs, i) + SizesIn(p.segs[i].frames, 0, k) <= |file|
    ensures SampleAt(p.segs[i], k, file, pos + CountBytes(p.segs, i) + SizesIn(p.segs[i].frames, 0, k))
  {
    hide ParamsOk, DataAll, SizesIn, CountBytes, SampleAt, At;
    InData(p, i, k);
    SampleInside(p.segs[i], k, DataAll(p.segs, |p.segs|), CountBytes(p.segs, i) + SizesIn(p.segs[i].frames, 0, k), file, pos);
  }

  lemma SampleInside(s: Seg, k: nat, data: Bytes, at: nat, file: Bytes, pos: nat)
    requires k < |s.frames| && SampleAt(s, k, data, at) && At(file, pos, data)
    ensures SampleAt(s, k, file, pos + at) && pos + at <= |file|
  {
    hide At, SizesIn;
    var start := SizesIn(s.frames, 0, k);
    var piece := s.data[start..start + s.frames[k].bytes];
    AtInside(file, pos, data, at, piece);
    AtBound(file, pos + at, piece);
  }

  lemma InData(p: Params, i: nat, k: nat)
    requires ParamsOk(p) && i < |p.segs| && k < |p.segs[i].frames|
    ensures SampleAt(p.segs[i], k, DataAll(p.segs, |p.segs|), CountBytes(p.segs, i) + SizesIn(p.segs[i].frames, 0, k))
  {
    hide ParamsOk, DataAll, SizesIn, CountBytes, At, SampleAt;
    DataSlice(p, i, k);
    DataAt(p.segs, i, |p.segs|);
    SampleInside(p.segs[i], k, p.segs[i].data, SizesIn(p.segs[i].frames, 0, k), DataAll(p.segs, |p.segs|), CountBytes(p.segs, i));
  }

  lemma DataSlice(p: Params, i: nat, k: nat)
    requires ParamsOk(p) && i < |p.segs| && k < |p.segs[i].frames|
    ensures SampleAt(p.segs[i], k, p.segs[i].data, SizesIn(p.segs[i].frames, 0, k))
  {
    assert SegOk(p.segs[i]);
    hide ParamsOk, Tabled;
    SizesGrow(p.segs[i].frames, k + 1, |p.segs[i].frames|);
    SliceAt(p.segs[i].data, SizesIn(p.segs[i].frames, 0, k), SizesIn(p.segs[i].frames, 0, k + 1));
  }

  /** The sample data is the end of the file. */
  lemma DataEnds(p: Params, t: FileType, edits: Option<seq<EditList.Entry>>, pos: nat, file: Bytes)
    requires ParamsOk(p) && TypeOk(p, t, edits) && t != InitSegment
    requires file == SerializeAll(FileTrees(p, t, edits, pos))
    requires pos + |DataAll(p.segs, |p.segs|)| == |file|
    ensures At(file, pos, DataAll(p.segs, |p.segs|))
  {
    hide ParamsOk, EditList.EditsOk, MoovTree, MoofTree, DataAll, Serialize;
    var trees, data := FileTrees(p, t, edits, pos), DataAll(p.segs, |p.segs|);
    var n := |trees| - 1;
    SerializeMore(trees[..n], trees[n]);
    assert trees[..n] + [trees[n]] == trees;
    BoxEnds(trees[n]);
    var front := SerializeAll(trees[..n]);
    assert file == front + Serialize(trees[n]);
    EndOf(front, Serialize(trees[n]), data);
  }

  lemma EndOf(front: Bytes, box: Bytes, data: Bytes)
    requires |data| <= |box| && box[|box| - |data|..] == data
    ensures At(front + box, |front| + |box| - |data|, data)
  {
    assert (front + box)[|front| + |box| - |data|..|front| + |box|] == box[|box| - |data|..];
  }

  lemma BoxEnds(t: Tree)
    requires !t.Node?
    ensures |t.body| <= |Serialize(t)| && Serialize(t)[|Serialize(t)| - |t.body|..] == t.body
  {
  }

  // -- media segments ----------------------------------------------------------------------

  /** The frames of segment i with their positions; the last one is cut. */
  ghost function SegPlaces(p: Params, i: nat, pos: nat): (ps: seq<Place>)
    requires ParamsOk(p) && i < |p.segs|
    ensures |ps| == |p.segs[i].frames|
  {
    var fs := p.segs[i].frames;
    SegReady(p, i);
    SegTabled(p, i);
    FramePlaceAt(fs, 0, |fs|, pos + CountBytes(p.segs, i));
    CutPlaces(FramePlaces(fs, |fs|, pos + CountBytes(p.segs, i)), Shown(fs, p.segs[i].part.end, |fs| - 1))
  }

  lemma SegPlacesFound(p: Params, i: nat, pos: nat)
    requires ParamsOk(p) && i < |p.segs|
    ensures Places(SegRuns(p, i, pos)) == SegPlaces(p, i, pos)
  {
    hide Places, FramePlaces, TrunsSpec;
    SegReady(p, i);
    TrunsPlaces(p.segs[i].frames, pos + CountBytes(p.segs, i), p.segs[i].part.end);
  }

  ghost function AllPlaces(p: Params, k: nat, pos: nat): (ps: seq<Place>)
    requires ParamsOk(p) && k <= |p.segs|
    ensures |ps| == CountFrames(p.segs, k)
  {
    if k == 0 then [] else AllPlaces(p, k - 1, pos) + SegPlaces(p, k - 1, pos)
  }

  /** A reader of the truns finds exactly the frames, in order. */
  lemma {:induction false} MediaPlaces(p: Params, k: nat, pos: nat)
    requires ParamsOk(p) && k <= |p.segs|
    ensures Places(TrunsAll(p, k, pos)) == AllPlaces(p, k, pos)
  {
    hide ParamsOk, Places, SegRuns, SegPlaces;
    if k == 0 {
      NoPlaces(pos);
    } else {
      MediaPlaces(p, k - 1, pos);
      SegPlacesFound(p, k - 1, pos);
      PlacesBoth(TrunsAll(p, k - 1, pos), SegRuns(p, k - 1, pos));
    }
  }

  lemma SegPlaceAt(p: Params, i: nat, k: nat, pos: nat)
    requires ParamsOk(p) && i < |p.segs| && k < |p.segs[i].frames|
    ensures 0 <= Shown(p.segs[i].frames, p.segs[i].part.end, k)
    ensures SegPlaces(p, i, pos)[k] ==
              Place(pos + CountBytes(p.segs, i) + SizesIn(p.segs[i].frames, 0, k), p.segs[i].frames[k].bytes, Shown(p.segs[i].frames, p.segs[i].part.end, k))
  {
    hide ParamsOk, FramePlaces, SizesIn, CountBytes, Tabled;
    var (fs, at) := (p.segs[i].frames, pos + CountBytes(p.segs, i));
    SegTabled(p, i);
    FramePlaceAt(fs, k, |fs|, at);
    CutAt(FramePlaces(fs, |fs|, at), Shown(fs, p.segs[i].part.end, |fs| - 1), k);
  }

  lemma CutAt(ps: seq<Place>, duration: nat, k: nat)
    requires k < |ps|
    ensures CutPlaces(ps, duration)[k] == if k == |ps| - 1 then ps[k].(duration := duration) else ps[k]
  {
  }

  lemma {:induction false} PlaceAt(p: Params, i: nat, k: nat, n: nat, pos: nat)
    requires ParamsOk(p) && i < n <= |p.segs| && k < |p.segs[i].frames|
    ensures CountFrames(p.segs, i) + k < CountFrames(p.segs, n)
    ensures 0 <= Shown(p.segs[i].frames, p.segs[i].part.end, k)
    ensures AllPlaces(p, n, pos)[CountFrames(p.segs, i) + k] ==
              Place(pos + CountBytes(p.segs, i) + SizesIn(p.segs[i].frames, 0, k), p.segs[i].frames[k].bytes, Shown(p.segs[i].frames, p.segs[i].part.end, k))
    decreases n
  {
    hide ParamsOk, SegPlaces;
    FramesGrow(p.segs, i + 1, n);
    SegPlaceAt(p, i, k, pos);
    if i < n - 1 {
      PlaceAt(p, i, k, n - 1, pos);
    }
  }

  // -- the track's time --------------------------------------------------------------------

  /** A segment as `Segment::new` makes it fits the file's parameters. */
  lemma SegmentFits(row: Row, data: Bytes, its: seq<It>, seg: Segment, b: nat, e: nat, start: int, end: int, atKey: bool, s: Seg)
    requires Indexed(row, data, its) && 0 <= start <= end <= row.mediaDuration
    requires Selected(its, start, StopAt(row, end), atKey, b, e) && Holds(seg, its, b, e)
    requires s.frames == its[b..e] && s.part == EditList.Part(ActualStart(seg), start, end)
    requires |s.data| == FileRange(seg).1 - FileRange(seg).0
    ensures SegOk(s) && EditList.Sane(s.part)
    ensures SumShown(s.frames, end, |s.frames|) == s.part.end - s.part.actualStart
  {
    hide Walk, Start, Advance;
    RangeHolds(seg, row, data, its, b, e);
    SttsSum(row, data, its, b, e, start, end, atKey);
    FramesTabled(row, data, its, seg, b, e, 0);
    SizesShift(its, b, e, e - b);
  }

  lemma {:induction false} SizesShift(its: seq<It>, b: nat, e: nat, k: nat)
    requires b <= e <= |its| && k <= e - b
    ensures SizesIn(its[b..e], 0, k) == SizesIn(its, b, b + k)
  {
    if k > 0 {
      SizesShift(its, b, e, k - 1);
    }
  }

  ghost function SttsTime(segs: seq<Seg>, k: nat): int
    requires k <= |segs|
  {
    if k == 0 then 0 else SttsTime(segs, k - 1) + SumShown(segs[k - 1].frames, segs[k - 1].part.end, |segs[k - 1].frames|)
  }

  /** The track time the edit list refers to is the sum of the stts durations before it: applied to
      the emitted stts, the edit list plays exactly the requested ranges. */
  lemma {:induction false} TrackTimeIsStts(segs: seq<Seg>, k: nat)
    requires k <= |segs|
    requires forall i | 0 <= i < |segs| :: SumShown(segs[i].frames, segs[i].part.end, |segs[i].frames|) == segs[i].part.end - segs[i].part.actualStart
    ensures EditList.TrackTime(Parts(segs), k) == SttsTime(segs, k)
  {
    if k > 0 {
      TrackTimeIsStts(segs, k - 1);
      assert Parts(segs)[k - 1] == segs[k - 1].part;
    }
  }

  // -- serving -----------------------------------------------------------------------------

  /** `get_co64`. */
  method GetCo64(segs: seq<Seg>, initialPos: nat) returns (v: Bytes)
    ensures v == Co64(segs, |segs|, initialPos)
  {
    v := [];
    var pos := initialPos;
    for i := 0 to |segs|
      invariant v == Co64(segs, i, initialPos) && pos == initialPos + CountBytes(segs, i)
    {
      v := v + U64(pos % 0x1_0000_0000_0000_0000);
      pos := pos + |segs[i].data|;
    }
  }

  /** A finished body serves any byte range of its file. */
  lemma ServesRanges(s: BodyState, slices: S.Slices)
    requires Ok_(s) && s.unflushed == |s.buf|
    requires slices.slices == Rendered(s.pieces, s.unflushed, s.buf) && slices.len == s.len
    ensures slices.Valid() && slices.Body() == Content(s) && |Content(s)| == s.len < 0x100_0000_0000
  {
    RenderedWhole(s.pieces, s.unflushed, s.buf);
    ContentLength(s);
    assert s.buf[s.unflushed..] == [];
  }
}
