/** The boxes a virtual .mp4 consists of, as trees (server/src/mp4.rs:80-330 and 1175-1720). */
module Mp4Boxes {
  import opened Base
  import opened BigEndian
  import opened BoxTree
  import opened SampleIndex
  import opened Segments
  import opened SampleTables
  import opened TrackRuns
  import EditList

  /** A video sample entry: the stream's parameters and its box. */
  datatype VideoEntry = VideoEntry(id: int, width: nat, height: nat, data: Bytes)

  /** A segment of the file: its frames, its requested range, the sample entry it uses and the sample
      data its frames cover. */
  datatype Seg = Seg(frames: seq<It>, part: EditList.Part, entry: int, data: Bytes)

  datatype Params = Params(segs: seq<Seg>, entries: seq<VideoEntry>, creation: nat)

  function Parts(segs: seq<Seg>): seq<EditList.Part> {
    seq(|segs|, i requires 0 <= i < |segs| => segs[i].part)
  }

  /** How long the movie plays: the requested ranges together. */
  ghost function Duration(p: Params): int {
    EditList.Asked(Parts(p.segs), |p.segs|)
  }

  ghost predicate SegOk(s: Seg) {
    && s.frames != [] && |s.frames| < 0x1_0000 && Tabled(s.frames, 0) && s.frames[|s.frames| - 1].start <= s.part.end
    && |s.data| == SizesIn(s.frames, 0, |s.frames|)
  }

  /** What appending segments establishes. */
  ghost predicate ParamsOk(p: Params) {
    && (forall i | 0 <= i < |p.segs| :: SegOk(p.segs[i]))
    && (forall i | 0 <= i < |p.segs| :: exists j :: 0 <= j < |p.entries| && p.entries[j].id == p.segs[i].entry)
    && CountFrames(p.segs, |p.segs|) + 1 < 0x1_0000_0000 && |p.segs| < 0x1_0000_0000 && |p.entries| < 0x1_0000_0000
    && p.creation < 0x1_0000_0000 && 0 <= Duration(p) < 0x1_0000_0000_0000_0000
    && (forall j | 0 <= j < |p.entries| :: p.entries[j].width < 0x1_0000 && p.entries[j].height < 0x1_0000)
  }

  // -- totals over segments ----------------------------------------------------------------

  function CountFrames(segs: seq<Seg>, k: nat): nat
    requires k <= |segs|
  {
    if k == 0 then 0 else CountFrames(segs, k - 1) + |segs[k - 1].frames|
  }

  function CountKeys(segs: seq<Seg>, k: nat): nat
    requires k <= |segs|
  {
    if k == 0 then 0 else CountKeys(segs, k - 1) + KeysIn(segs[k - 1].frames, 0, |segs[k - 1].frames|)
  }

  function CountBytes(segs: seq<Seg>, k: nat): nat
    requires k <= |segs|
  {
    if k == 0 then 0 else CountBytes(segs, k - 1) + |segs[k - 1].data|
  }

  lemma {:induction false} FramesGrow(segs: seq<Seg>, j: nat, k: nat)
    requires j <= k <= |segs|
    ensures CountFrames(segs, j) <= CountFrames(segs, k)
  {
    if j < k {
      FramesGrow(segs, j, k - 1);
    }
  }

  /** Frames are numbered from 1 through the whole file. */
  function FirstFrame(segs: seq<Seg>, i: nat): nat
    requires i <= |segs|
  {
    CountFrames(segs, i) + 1
  }

  lemma SegTabled(p: Params, i: nat)
    requires ParamsOk(p) && i < |p.segs|
    ensures Tabled(p.segs[i].frames, FirstFrame(p.segs, i)) && Tabled(p.segs[i].frames, 0)
    ensures 0 <= Shown(p.segs[i].frames, p.segs[i].part.end, |p.segs[i].frames| - 1) < 0x8000_0000
  {
    FramesGrow(p.segs, i + 1, |p.segs|);
    assert SegOk(p.segs[i]);
  }

  // -- tables ------------------------------------------------------------------------------

  ghost function SttsAll(p: Params, k: nat): Bytes
    requires ParamsOk(p) && k <= |p.segs|
  {
    if k == 0 then []
    else
      SegTabled(p, k - 1);
      SttsAll(p, k - 1) + SttsCut(p.segs[k - 1].frames, p.segs[k - 1].part.end)
  }

  ghost function StszAll(p: Params, k: nat): Bytes
    requires ParamsOk(p) && k <= |p.segs|
  {
    if k == 0 then []
    else
      SegTabled(p, k - 1);
      StszAll(p, k - 1) + Stsz(p.segs[k - 1].frames, |p.segs[k - 1].frames|)
  }

  ghost function StssAll(p: Params, k: nat): Bytes
    requires ParamsOk(p) && k <= |p.segs|
  {
    if k == 0 then []
    else
      SegTabled(p, k - 1);
      StssAll(p, k - 1) + Stss(p.segs[k - 1].frames, FirstFrame(p.segs, k - 1), |p.segs[k - 1].frames|)
  }

  /** The position of a sample entry. */
  function FindEntry(entries: seq<VideoEntry>, id: int, k: nat): (r: Option<nat>)
    requires k <= |entries|
    ensures r.Some? ==> k <= r.value < |entries| && entries[r.value].id == id
    ensures r.None? ==> forall j | k <= j < |entries| :: entries[j].id != id
    decreases |entries| - k
  {
    if k == |entries| then None else if entries[k].id == id then Some(k) else FindEntry(entries, id, k + 1)
  }

  /** One chunk a segment: its number, its frames and its sample entry. */
  function StscEntry(p: Params, i: nat): (r: Bytes)
    requires i < |p.segs| < 0x1_0000_0000 && |p.entries| < 0x1_0000_0000
    ensures |r| == 12
  {
    var s := p.segs[i];
    var j := FindEntry(p.entries, s.entry, 0);
    U32(i + 1) + U32(|s.frames| % 0x1_0000_0000) + U32((if j.Some? then j.value + 1 else 0) % 0x1_0000_0000)
  }

  function Stsc(p: Params, k: nat): (r: Bytes)
    requires k <= |p.segs| < 0x1_0000_0000 && |p.entries| < 0x1_0000_0000
    ensures |r| == 12 * k
  {
    if k == 0 then [] else Stsc(p, k - 1) + StscEntry(p, k - 1)
  }

  /** Chunk offsets: each segment's data follows the one before. */
  function Co64(segs: seq<Seg>, k: nat, pos: nat): (r: Bytes)
    requires k <= |segs|
    ensures |r| == 8 * k
  {
    if k == 0 then [] else Co64(segs, k - 1, pos) + U64((pos + CountBytes(segs, k - 1)) % 0x1_0000_0000_0000_0000)
  }

  function DataAll(segs: seq<Seg>, k: nat): (r: Bytes)
    requires k <= |segs|
    ensures |r| == CountBytes(segs, k)
  {
    if k == 0 then [] else DataAll(segs, k - 1) + segs[k - 1].data
  }

  function EntriesAll(entries: seq<VideoEntry>, k: nat): Bytes
    requires k <= |entries|
  {
    if k == 0 then [] else EntriesAll(entries, k - 1) + entries[k - 1].data
  }

  // -- leaf boxes --------------------------------------------------------------------------

  const MDAT: Kind := [0x6d, 0x64, 0x61, 0x74]
  const FTYP: Kind := [0x66, 0x74, 0x79, 0x70]
  const MVHD: Kind := [0x6d, 0x76, 0x68, 0x64]
  const TKHD: Kind := [0x74, 0x6b, 0x68, 0x64]
  const ELST: Kind := [0x65, 0x6c, 0x73, 0x74]
  const MDHD: Kind := [0x6d, 0x64, 0x68, 0x64]
  const HDLR: Kind := [0x68, 0x64, 0x6c, 0x72]
  const VMHD: Kind := [0x76, 0x6d, 0x68, 0x64]
  const DREF: Kind := [0x64, 0x72, 0x65, 0x66]
  const STSD: Kind := [0x73, 0x74, 0x73, 0x64]
  const STTS: Kind := [0x73, 0x74, 0x74, 0x73]
  const STSC: Kind := [0x73, 0x74, 0x73, 0x63]
  const STSZ: Kind := [0x73, 0x74, 0x73, 0x7a]
  const CO64: Kind := [0x63, 0x6f, 0x36, 0x34]
  const STSS: Kind := [0x73, 0x74, 0x73, 0x73]
  const TREX: Kind := [0x74, 0x72, 0x65, 0x78]
  const MFHD: Kind := [0x6d, 0x66, 0x68, 0x64]
  const TFHD: Kind := [0x74, 0x66, 0x68, 0x64]
  const TFDT: Kind := [0x74, 0x66, 0x64, 0x74]

  /** Brands isom; isom, iso2, avc1, mp41. */
  const FTYP_BODY: Bytes := [
    0x69, 0x73, 0x6f, 0x6d, 0, 0, 0, 0, 0x69, 0x73, 0x6f, 0x6d, 0x69, 0x73, 0x6f, 0x32, 0x61, 0x76, 0x63, 0x31, 0x6d, 0x70, 0x34, 0x31]

  /** Brand iso5 only. */
  const INIT_FTYP_BODY: Bytes := [0x69, 0x73, 0x6f, 0x35, 0, 0, 0, 0, 0x69, 0x73, 0x6f, 0x35]

  /** A video handler without a name. */
  const HDLR_BODY: Bytes := [0, 0, 0, 0, 0, 0, 0, 0, 0x76, 0x69, 0x64, 0x65, 0, 0, 0, 0, 0, 0, 0, 0, 0, 0, 0, 0, 0]

  const VMHD_BODY: Bytes := [0, 0, 0, 1, 0, 0, 0, 0, 0, 0, 0, 0]

  /** One self-contained url entry. */
  const DREF_BODY: Bytes := [0, 0, 0, 0, 0, 0, 0, 1, 0, 0, 0, 12, 0x75, 0x72, 0x6c, 0x20, 0, 0, 0, 1]

  /** `NORMAL_FTYP_BOX`, `INIT_SEGMENT_FTYP_BOX`, `VIDEO_HDLR_BOX`: whole boxes with their lengths
      written out. */
  const NORMAL_FTYP: Bytes := [0, 0, 0, 32] + (FTYP + FTYP_BODY)
  const INIT_FTYP: Bytes := [0, 0, 0, 20] + (FTYP + INIT_FTYP_BODY)
  const VIDEO_HDLR: Bytes := [0, 0, 0, 33] + (HDLR + HDLR_BODY)

  /** `VIDEO_MINF_JUNK` after the type of the minf box: a whole vmhd and a whole dinf box. */
  const VMHD_BOX: Bytes := [0, 0, 0, 20] + (VMHD + VMHD_BODY)
  const DREF_BOX: Bytes := [0, 0, 0, 28] + (DREF + DREF_BODY)
  const DINF_BOX: Bytes := [0, 0, 0, 36] + (DINF + DREF_BOX)

  /** `MVHD_JUNK`: rate, volume, matrix. */
  const MVHD_JUNK: Bytes := [0, 1, 0, 0] + [
    1, 0, 0, 0, 0, 0, 0, 0, 0, 0, 0, 0, 0, 1, 0, 0, 0, 0, 0, 0, 0, 0, 0, 0, 0, 0, 0, 0, 0, 1, 0, 0,
    0, 0, 0, 0, 0, 0, 0, 0, 0, 0, 0, 0, 0x40, 0, 0, 0, 0, 0, 0, 0, 0, 0, 0, 0, 0, 0, 0, 0, 0, 0, 0, 0, 0, 0, 0, 0, 0, 0, 0, 0]

  /** `TKHD_JUNK`: layer, volume, matrix. */
  const TKHD_JUNK: Bytes := [
    0, 0, 0, 0, 0, 0, 0, 0, 0, 0, 0, 0, 0, 0, 0, 0, 0, 1, 0, 0, 0, 0, 0, 0, 0, 0, 0, 0, 0, 0, 0, 0, 0, 1, 0, 0,
    0, 0, 0, 0, 0, 0, 0, 0, 0, 0, 0, 0, 0x40, 0, 0, 0]

  const ZERO4: Bytes := [0, 0, 0, 0]
  const VERSION1: Bytes := [1, 0, 0, 0]

  function FtypTree(): Tree { Leaf(FTYP, FTYP_BODY) }
  function InitFtypTree(): Tree { Leaf(FTYP, INIT_FTYP_BODY) }
  function HdlrTree(): Tree { Leaf(HDLR, HDLR_BODY) }
  function VmhdTree(): Tree { Leaf(VMHD, VMHD_BODY) }
  function DrefTree(): Tree { Leaf(DREF, DREF_BODY) }
  function DinfTree(): Tree { Node(DINF, [DrefTree()]) }

  /** The static strings are the boxes they claim to be. */
  lemma StaticBoxes()
    ensures Serialize(FtypTree()) == NORMAL_FTYP && Serialize(InitFtypTree()) == INIT_FTYP
    ensures Serialize(HdlrTree()) == VIDEO_HDLR
  {
    assert U32(32) == [0, 0, 0, 32] && U32(20) == [0, 0, 0, 20] && U32(33) == [0, 0, 0, 33];
  }

  lemma MinfBoxes()
    ensures Serialize(VmhdTree()) == VMHD_BOX && Serialize(DinfTree()) == DINF_BOX
  {
    assert U32(20) == [0, 0, 0, 20] && U32(28) == [0, 0, 0, 28] && U32(36) == [0, 0, 0, 36];
    assert Serialize(DrefTree()) == DREF_BOX;
    assert SerializeAll([DrefTree()]) == Serialize(DrefTree()) + SerializeAll([]) == DREF_BOX;
  }

  // -- growing contents --------------------------------------------------------------------

  lemma {:induction false} SerializeMore(ts: seq<Tree>, t: Tree)
    ensures SerializeAll(ts + [t]) == SerializeAll(ts) + Serialize(t)
  {
    hide Serialize;
    if ts == [] {
      assert ts + [t] == [t] && [t][1..] == [];
      assert Serialize(t) + [] == [] + Serialize(t);
    } else {
      SerializeMore(ts[1..], t);
      assert (ts + [t])[1..] == ts[1..] + [t];
      assert Serialize(ts[0]) + (SerializeAll(ts[1..]) + Serialize(t)) == Serialize(ts[0]) + SerializeAll(ts[1..]) + Serialize(t);
    }
  }

  lemma SerializeNone()
    ensures SerializeAll([]) == []
  {
  }

  // -- trees -------------------------------------------------------------------------------

  ghost function MvhdBody(p: Params): Bytes
    requires p.creation < 0x1_0000_0000 && 0 <= Duration(p) < 0x1_0000_0000_0000_0000
  {
    VERSION1 + U64(p.creation) + U64(p.creation) + U32(90000) + U64(Duration(p)) + MVHD_JUNK + U32(2)
  }

  ghost function TkhdBody(p: Params, width: nat, height: nat): Bytes
    requires p.creation < 0x1_0000_0000 && width < 0x1_0000 && height < 0x1_0000
  {
    [0, 0, 0, 7] + U32(p.creation) + U32(p.creation) + U32(1) + U32(0) + U32(Duration(p) % 0x1_0000_0000) + TKHD_JUNK
    + U32(width * 0x1_0000) + U32(height * 0x1_0000)
  }

  function ElstEntries(es: seq<EditList.Entry>, k: nat): Bytes
    requires k <= |es|
  {
    if k == 0 then []
    else
      ElstEntries(es, k - 1) + (U64(es[k - 1].duration % 0x1_0000_0000_0000_0000)
                                + U64(es[k - 1].mediaTime % 0x1_0000_0000_0000_0000) + [0, 1, 0, 0])
  }

  function EdtsTree(es: seq<EditList.Entry>): Tree {
    Node(EDTS, [Leaf(ELST, VERSION1 + U32(|es| % 0x1_0000_0000) + ElstEntries(es, |es|))])
  }

  ghost function MdhdBody(p: Params): Bytes
    requires p.creation < 0x1_0000_0000 && 0 <= Duration(p) < 0x1_0000_0000_0000_0000
  {
    VERSION1 + U64(p.creation) + U64(p.creation) + U32(90000) + U64(Duration(p)) + U32(0x55c4_0000)
  }

  ghost function StsdTree(p: Params): Tree
    requires ParamsOk(p)
  {
    Leaf(STSD, ZERO4 + U32(|p.entries|) + EntriesAll(p.entries, |p.entries|))
  }

  ghost function SttsTree(p: Params): Tree
    requires ParamsOk(p)
  {
    Leaf(STTS, ZERO4 + U32(CountFrames(p.segs, |p.segs|)) + SttsAll(p, |p.segs|))
  }

  ghost function StscTree(p: Params): Tree
    requires ParamsOk(p)
  {
    Leaf(STSC, ZERO4 + U32(|p.segs|) + Stsc(p, |p.segs|))
  }

  ghost function StszTree(p: Params): Tree
    requires ParamsOk(p)
  {
    Leaf(STSZ, (ZERO4 + ZERO4) + U32(CountFrames(p.segs, |p.segs|)) + StszAll(p, |p.segs|))
  }

  ghost function Co64Tree(p: Params, pos: nat): Tree
    requires ParamsOk(p)
  {
    Leaf(CO64, ZERO4 + U32(|p.segs|) + Co64(p.segs, |p.segs|, pos))
  }

  ghost function StssTree(p: Params): Tree
    requires ParamsOk(p)
  {
    Leaf(STSS, ZERO4 + U32(CountKeys(p.segs, |p.segs|) % 0x1_0000_0000) + StssAll(p, |p.segs|))
  }

  ghost function StblKids(p: Params, init: bool, pos: nat): seq<Tree>
    requires ParamsOk(p)
  {
    [StsdTree(p), SttsTree(p), StscTree(p), StszTree(p), Co64Tree(p, pos)] + if init then [] else [StssTree(p)]
  }

  ghost function MinfKids(p: Params, init: bool, pos: nat): seq<Tree>
    requires ParamsOk(p)
  {
    [VmhdTree(), DinfTree(), Node(STBL, StblKids(p, init, pos))]
  }

  ghost function MdiaKids(p: Params, init: bool, pos: nat): seq<Tree>
    requires ParamsOk(p)
  {
    [Leaf(MDHD, MdhdBody(p)), HdlrTree(), Node(MINF, MinfKids(p, init, pos))]
  }

  /** The largest width and height of any sample entry. */
  function MaxSize(entries: seq<VideoEntry>, k: nat): (r: (nat, nat))
    requires 0 < k <= |entries|
    requires forall j | 0 <= j < |entries| :: entries[j].width < 0x1_0000 && entries[j].height < 0x1_0000
    ensures r.0 < 0x1_0000 && r.1 < 0x1_0000
    ensures forall j | 0 <= j < k :: entries[j].width <= r.0 && entries[j].height <= r.1
  {
    var e := entries[k - 1];
    if k == 1 then (e.width, e.height)
    else
      var m := MaxSize(entries, k - 1);
      (Max(m.0, e.width), Max(m.1, e.height))
  }

  ghost function TkhdTree(p: Params): Tree
    requires p.creation < 0x1_0000_0000 && p.entries != []
    requires forall j | 0 <= j < |p.entries| :: p.entries[j].width < 0x1_0000 && p.entries[j].height < 0x1_0000
  {
    var size := MaxSize(p.entries, |p.entries|);
    Leaf(TKHD, TkhdBody(p, size.0, size.1))
  }

  ghost function TrakKids(p: Params, edits: Option<seq<EditList.Entry>>, init: bool, pos: nat): seq<Tree>
    requires ParamsOk(p) && p.entries != []
  {
    [TkhdTree(p)]
    + (if edits.Some? then [EdtsTree(edits.value)] else [])
    + [Node(MDIA, MdiaKids(p, init, pos))]
  }

  function TrexBody(): Bytes {
    ZERO4 + [0, 0, 0, 1, 0, 0, 0, 1, 0, 0, 0, 0, 0, 0, 0, 0, 0x09, 0x21, 0, 0]
  }

  ghost function MoovTree(p: Params, edits: Option<seq<EditList.Entry>>, init: bool, pos: nat): Tree
    requires ParamsOk(p) && p.entries != []
  {
    Node(MOOV, [Leaf(MVHD, MvhdBody(p)), Node(TRAK, TrakKids(p, edits, init, pos))]
               + if init then [Node(MVEX, [Leaf(TREX, TrexBody())])] else [])
  }

  // -- fragments ---------------------------------------------------------------------------

  ghost function RunTrees(rs: seq<Run>): seq<Tree>
    requires RunsFit(rs)
  {
    if rs == [] then [] else RunTrees(rs[..|rs| - 1]) + [Leaf(TRUN, RunBody(rs[|rs| - 1]))]
  }

  lemma {:induction false} RunTreesBytes(rs: seq<Run>)
    requires RunsFit(rs)
    ensures SerializeAll(RunTrees(rs)) == AllRuns(rs)
  {
    hide RunBody, RunBytes, Serialize;
    if rs != [] {
      FrontFits(rs);
      var front, last := rs[..|rs| - 1], rs[|rs| - 1];
      RunTreesBytes(front);
      SerializeMore(RunTrees(front), Leaf(TRUN, RunBody(last)));
      RunBoxed(last);
      LeafBytes(TRUN, RunBody(last));
    }
  }

  lemma LeafBytes(kind: Kind, body: Bytes)
    ensures Serialize(Leaf(kind, body)) == Boxed(kind, body)
  {
  }

  /** The runs of segment i; its data follows the data of the segments before. */
  function SegRuns(p: Params, i: nat, pos: nat): (rs: seq<Run>)
    requires ParamsOk(p) && i < |p.segs|
    ensures RunsFit(rs)
  {
    assert SegOk(p.segs[i]);
    TrunsSpec(p.segs[i].frames, pos + CountBytes(p.segs, i), p.segs[i].part.end)
  }

  ghost function TrunsAll(p: Params, k: nat, pos: nat): (rs: seq<Run>)
    requires ParamsOk(p) && k <= |p.segs|
    ensures RunsFit(rs)
  {
    if k == 0 then []
    else
      RunsFitBoth(TrunsAll(p, k - 1, pos), SegRuns(p, k - 1, pos));
      TrunsAll(p, k - 1, pos) + SegRuns(p, k - 1, pos)
  }

  lemma RunsFitBoth(a: seq<Run>, b: seq<Run>)
    requires RunsFit(a) && RunsFit(b)
    ensures RunsFit(a + b)
  {
    forall i | 0 <= i < |a + b| ensures RunFits((a + b)[i]) {
      assert i < |a| ==> RunFits(a[i]);
      assert i >= |a| ==> RunFits(b[i - |a|]);
    }
  }

  lemma {:induction false} AllRunsBoth(a: seq<Run>, b: seq<Run>)
    requires RunsFit(a) && RunsFit(b)
    ensures RunsFit(a + b) && AllRuns(a + b) == AllRuns(a) + AllRuns(b)
    decreases |b|
  {
    hide RunBytes;
    RunsFitBoth(a, b);
    if b == [] {
      assert a + b == a;
    } else {
      FrontFits(b);
      var front, last := b[..|b| - 1], b[|b| - 1];
      AllRunsBoth(a, front);
      assert (a + b)[..|a + b| - 1] == a + front && (a + b)[|a + b| - 1] == last;
      assert AllRuns(a) + (AllRuns(front) + RunBytes(last)) == AllRuns(a) + AllRuns(front) + RunBytes(last);
    }
  }

  ghost function TrafKids(p: Params, pos: nat): seq<Tree>
    requires ParamsOk(p)
  {
    [Leaf(TFHD, [0, 2, 0, 0, 0, 0, 0, 1]), Leaf(TFDT, ZERO4 + ZERO4)] + RunTrees(TrunsAll(p, |p.segs|, pos))
  }

  ghost function MoofTree(p: Params, pos: nat): Tree
    requires ParamsOk(p)
  {
    Node(MOOF, [Leaf(MFHD, ZERO4 + U32(1)), Node(TRAF, TrafKids(p, pos))])
  }
}
