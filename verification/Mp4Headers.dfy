/** Finding the boxes of a built .mp4, and the fields of its headers (ISO/IEC 14496-12 sections 8.2 to
    8.4). */
module Mp4Headers {
  import opened Base
  import opened BigEndian
  import opened BoxTree
  import opened TrackRuns
  import opened Mp4Boxes
  import opened Mp4File
  import opened Mp4Serve
  import opened Mp4Reader
  import opened Mp4Lengths
  import EditList

  // -- finding boxes -----------------------------------------------------------------------

  lemma HeadersDiffer()
    ensures FTYP != MOOV && MVHD != TRAK && MFHD != TRAF && TFHD != TRUN && TFDT != TRUN
    ensures MDHD != MINF && HDLR != MINF && VMHD != STBL && DINF != STBL
  {
    assert FTYP[0] != MOOV[0] && MVHD[0] != TRAK[0] && MFHD[0] != TRAF[0] && TFHD[1] != TRUN[1] && TFDT[1] != TRUN[1];
    assert MDHD[1] != MINF[1] && HDLR[0] != MINF[0] && VMHD[0] != STBL[0] && DINF[0] != STBL[0];
  }

  lemma TrakDiffer()
    ensures TKHD != MDIA && EDTS != MDIA && TKHD != EDTS
  {
    assert TKHD[0] != MDIA[0] && EDTS[0] != MDIA[0] && TKHD[0] != EDTS[0];
  }

  lemma TablesDiffer()
    ensures STSD != STTS && STSD != STSC && STTS != STSC && STSD != STSZ && STTS != STSZ && STSC != STSZ
    ensures STSD != CO64 && STTS != CO64 && STSC != CO64 && STSZ != CO64
    ensures STSD != STSS && STTS != STSS && STSC != STSS && STSZ != STSS && CO64 != STSS
  {
    assert STSD[2] != STTS[2] && STSD[3] != STSC[3] && STTS[2] != STSC[2] && STSD[3] != STSZ[3] && STTS[2] != STSZ[2];
    assert STSC[3] != STSZ[3] && STSD[0] != CO64[0] && STTS[0] != CO64[0] && STSC[0] != CO64[0] && STSZ[0] != CO64[0];
    assert STSD[3] != STSS[3] && STTS[2] != STSS[2] && STSC[3] != STSS[3] && STSZ[3] != STSS[3] && CO64[0] != STSS[0];
  }

  /** The first box of a track, its edit box and its media box. */
  lemma TrakBoxes(p: Params, edits: Option<seq<EditList.Entry>>, init: bool, pos: nat)
    requires ParamsOk(p) && p.entries != []
    ensures var trak := TrakKids(p, edits, init, pos);
            && trak[0].kind == TKHD && trak[|trak| - 1] == Node(MDIA, MdiaKids(p, init, pos))
            && |trak| == (if edits.Some? then 3 else 2)
            && (edits.Some? ==> trak[1] == EdtsTree(edits.value) && trak[1].kind == EDTS)
  {
    EntriesOk(p);
    hide ParamsOk, MdiaKids, TkhdBody, ElstEntries, MaxSize;
  }

  /** A player finds the track and its sample tables. */
  lemma BoxesFound(p: Params, t: FileType, edits: Option<seq<EditList.Entry>>, pos: nat)
    requires ParamsOk(p) && p.entries != [] && t != MediaSegment
    ensures var file, init := FileTrees(p, t, edits, pos), t == InitSegment;
            && Inside(file, MOOV) == MoovTree(p, edits, init, pos).kids && Trak(file) == TrakKids(p, edits, init, pos)
            && Stbl(file) == StblKids(p, init, pos)
  {
    hide ParamsOk, FileTrees, MoovTree, TrakKids, StblKids, Inside;
    var file, init := FileTrees(p, t, edits, pos), t == InitSegment;
    MoovFound(p, t, edits, pos);
    TrakFound(p, edits, init, pos);
    MdiaFound(p, edits, init, pos);
    StblFound(p, init, pos);
  }

  lemma MoovFound(p: Params, t: FileType, edits: Option<seq<EditList.Entry>>, pos: nat)
    requires ParamsOk(p) && p.entries != [] && t != MediaSegment
    ensures MoovTree(p, edits, t == InitSegment, pos).Node?
    ensures Inside(FileTrees(p, t, edits, pos), MOOV) == MoovTree(p, edits, t == InitSegment, pos).kids
  {
    HeadersDiffer();
    hide ParamsOk, DataAll, Child, Inside, TrakKids, MvhdBody, TrexBody;
    ChildIs(FileTrees(p, t, edits, pos), 1, MOOV);
  }

  lemma TrakFound(p: Params, edits: Option<seq<EditList.Entry>>, init: bool, pos: nat)
    requires ParamsOk(p) && p.entries != []
    ensures MoovTree(p, edits, init, pos).Node?
    ensures Inside(MoovTree(p, edits, init, pos).kids, TRAK) == TrakKids(p, edits, init, pos)
  {
    HeadersDiffer();
    hide ParamsOk, Child, Inside, TrakKids, MvhdBody, TrexBody;
    ChildIs(MoovTree(p, edits, init, pos).kids, 1, TRAK);
  }

  lemma MdiaFound(p: Params, edits: Option<seq<EditList.Entry>>, init: bool, pos: nat)
    requires ParamsOk(p) && p.entries != []
    ensures Inside(TrakKids(p, edits, init, pos), MDIA) == MdiaKids(p, init, pos)
  {
    TrakDiffer();
    TrakBoxes(p, edits, init, pos);
    hide ParamsOk, Child, Inside, MdiaKids, TrakKids, EdtsTree;
    ChildIs(TrakKids(p, edits, init, pos), |TrakKids(p, edits, init, pos)| - 1, MDIA);
  }

  lemma StblFound(p: Params, init: bool, pos: nat)
    requires ParamsOk(p)
    ensures Inside(Inside(MdiaKids(p, init, pos), MINF), STBL) == StblKids(p, init, pos)
  {
    HeadersDiffer();
    hide ParamsOk, Child, Inside, StblKids, MdhdBody;
    ChildIs(MdiaKids(p, init, pos), 2, MINF);
    ChildIs(MinfKids(p, init, pos), 2, STBL);
  }

  lemma TablesFound(p: Params, init: bool, pos: nat)
    requires ParamsOk(p)
    ensures var stbl := StblKids(p, init, pos);
            && BodyOf(stbl, STTS) == SttsTree(p).body && BodyOf(stbl, STSC) == StscTree(p).body
            && BodyOf(stbl, STSZ) == StszTree(p).body && BodyOf(stbl, CO64) == Co64Tree(p, pos).body
            && (!init ==> BodyOf(stbl, STSS) == StssTree(p).body) && BodyOf(stbl, STSD) == StsdTree(p).body
  {
    TablesDiffer();
    hide ParamsOk, SttsAll, StszAll, StssAll, Stsc, Co64, EntriesAll, Child, BodyOf;
    var stbl := StblKids(p, init, pos);
    ChildIs(stbl, 0, STSD);
    ChildIs(stbl, 1, STTS);
    ChildIs(stbl, 2, STSC);
    ChildIs(stbl, 3, STSZ);
    ChildIs(stbl, 4, CO64);
    if !init {
      ChildIs(stbl, 5, STSS);
    }
  }

  // -- header fields -----------------------------------------------------------------------

  lemma WordIn(front: Bytes, x: nat, rest: Bytes)
    requires x < 0x1_0000_0000
    ensures Word(front + U32(x) + rest, |front|) == x
  {
    hide U32, Word;
    AtEnd(front, U32(x));
    AtLonger(front + U32(x), rest, |front|, U32(x));
    WordAt(front + U32(x) + rest, |front|, x);
  }

  lemma LongIn(front: Bytes, x: nat, rest: Bytes)
    requires x < 0x1_0000_0000_0000_0000
    ensures Long(front + U64(x) + rest, |front|) == x
  {
    hide U64, Long;
    AtEnd(front, U64(x));
    AtLonger(front + U64(x), rest, |front|, U64(x));
    LongAt(front + U64(x) + rest, |front|, x);
  }

  /** mvhd and mdhd, version 1: two times, the time scale, the duration. */
  lemma ScaleAndTime(creation: nat, duration: nat, rest: Bytes)
    requires creation < 0x1_0000_0000 && duration < 0x1_0000_0000_0000_0000
    ensures var header := VERSION1 + U64(creation) + U64(creation) + U32(90000) + U64(duration) + rest;
            ScaleOf(header) == 90000 && TimeOf(header) == duration
  {
    hide U32, U64, Word, Long;
    var times := VERSION1 + U64(creation) + U64(creation);
    var header := times + U32(90000) + U64(duration) + rest;
    VersionIs(U64(creation) + U64(creation) + U32(90000) + U64(duration) + rest);
    assert header == VERSION1 + (U64(creation) + U64(creation) + U32(90000) + U64(duration) + rest);
    WordIn(times, 90000, U64(duration) + rest);
    assert header == times + U32(90000) + (U64(duration) + rest);
    LongIn(times + U32(90000), duration, rest);
  }

  lemma VersionIs(rest: Bytes)
    ensures Word(VERSION1 + rest, 0) == 0x100_0000
  {
  }

  /** Movie and media count time in units of 1/90000 s, and are as long as what was asked for. */
  lemma ScalesAre(p: Params)
    requires ParamsOk(p)
    ensures p.creation < 0x1_0000_0000 && 0 <= Duration(p) < 0x1_0000_0000_0000_0000
    ensures ScaleOf(MvhdBody(p)) == 90000 && TimeOf(MvhdBody(p)) == Duration(p)
    ensures ScaleOf(MdhdBody(p)) == 90000 && TimeOf(MdhdBody(p)) == Duration(p)
  {
    DurationBound(p);
    hide ParamsOk, U32, U64, ScaleOf, TimeOf;
    ScaleAndTime(p.creation, Duration(p), MVHD_JUNK + U32(2));
    ScaleAndTime(p.creation, Duration(p), U32(0x55c4_0000));
    var times := VERSION1 + U64(p.creation) + U64(p.creation) + U32(90000) + U64(Duration(p));
    assert times + MVHD_JUNK + U32(2) == times + (MVHD_JUNK + U32(2));
  }

  lemma RateIs(p: Params)
    requires ParamsOk(p)
    ensures p.creation < 0x1_0000_0000 && 0 <= Duration(p) < 0x1_0000_0000_0000_0000
    ensures RateOf(MvhdBody(p)) == 0x1_0000
  {
    DurationBound(p);
    var v, c, r, d := VERSION1, U64(p.creation), U32(90000), U64(Duration(p));
    JunkStarts(U32(2));
    VersionIs(c + c + r + d + MVHD_JUNK + U32(2));
    hide ParamsOk, U32, U64, Word, RateOf;
    RateField(v, c, r, d, MVHD_JUNK, U32(2));
  }

  lemma RateField(v: Bytes, c: Bytes, r: Bytes, d: Bytes, junk: Bytes, rest: Bytes)
    requires |v| == |r| == 4 && |c| == |d| == 8
    requires Word(v + (c + c + r + d + junk + rest), 0) == 0x100_0000 && Word(junk + rest, 0) == 0x1_0000
    ensures RateOf(v + c + c + r + d + junk + rest) == 0x1_0000
  {
    hide Word;
    var front := v + c + c + r + d;
    assert v + c + c + r + d + junk + rest == v + (c + c + r + d + junk + rest);
    assert v + c + c + r + d + junk + rest == front + (junk + rest);
    WordBehind(front, junk + rest, 0);
  }

  lemma JunkStarts(rest: Bytes)
    ensures Word(MVHD_JUNK + rest, 0) == 0x1_0000
  {
    var rate: Bytes, s := [0, 1, 0, 0], MVHD_JUNK + rest;
    assert MVHD_JUNK[..4] == rate;
    assert s[..4] == rate;
    assert forall i | 0 <= i < 4 :: s[i] == s[..4][i];
  }

  lemma TicksSame(x: nat)
    ensures Ticks(x, 90000) == x
  {
  }

  lemma HeadersFound(p: Params, t: FileType, edits: Option<seq<EditList.Entry>>, pos: nat)
    requires ParamsOk(p) && p.entries != [] && t != MediaSegment
    ensures p.creation < 0x1_0000_0000 && 0 <= Duration(p) < 0x1_0000_0000_0000_0000
    ensures var file := FileTrees(p, t, edits, pos);
            Mvhd(file) == MvhdBody(p) && Mdhd(file) == MdhdBody(p) && BodyOf(Trak(file), TKHD) == TkhdTree(p).body
  {
    DurationBound(p);
    EntriesOk(p);
    MdiaFound(p, edits, t == InitSegment, pos);
    BoxesFound(p, t, edits, pos);
    TkhdFound(p, edits, t == InitSegment, pos);
    hide ParamsOk, FileTrees, TrakKids, MinfKids, MvhdBody, MdhdBody, TkhdTree, TrexBody, Child, Inside, BodyOf, Stbl, Trak;
    ChildIs(MoovTree(p, edits, t == InitSegment, pos).kids, 0, MVHD);
    ChildIs(MdiaKids(p, t == InitSegment, pos), 0, MDHD);
  }

  lemma TkhdFound(p: Params, edits: Option<seq<EditList.Entry>>, init: bool, pos: nat)
    requires ParamsOk(p) && p.entries != []
    ensures p.creation < 0x1_0000_0000 && BodyOf(TrakKids(p, edits, init, pos), TKHD) == TkhdTree(p).body
  {
    EntriesOk(p);
    hide ParamsOk, MdiaKids, TkhdBody, Child, BodyOf, EdtsTree, MaxSize;
    ChildIs(TrakKids(p, edits, init, pos), 0, TKHD);
  }

  /** The file's time scales and durations, from its boxes. */
  lemma TimesFound(p: Params, t: FileType, edits: Option<seq<EditList.Entry>>, pos: nat)
    requires ParamsOk(p) && p.entries != [] && t != MediaSegment
    ensures var file := FileTrees(p, t, edits, pos);
            && ScaleOf(Mvhd(file)) == 90000 && ScaleOf(Mdhd(file)) == 90000
            && MovieDuration(file) == Duration(p) && MdhdDuration(file) == Duration(p)
            && TrackDuration(file) == Duration(p) % 0x1_0000_0000
            && RateOf(Mvhd(file)) == 0x1_0000
  {
    hide ParamsOk, FileTrees, MvhdBody, MdhdBody, TkhdTree, Mvhd, Mdhd, ScaleOf, TimeOf, RateOf, Word, BodyOf, Trak, Ticks;
    HeadersFound(p, t, edits, pos);
    ScalesAre(p);
    RateIs(p);
    TkhdFields(p);
    TicksSame(Duration(p));
    TicksSame(Duration(p) % 0x1_0000_0000);
  }

  /** The track header: the track is enabled, it is track 1, its duration's low 32 bits and its size. */
  lemma TkhdFields(p: Params)
    requires ParamsOk(p) && p.entries != []
    ensures p.creation < 0x1_0000_0000 && 0 <= Duration(p)
    ensures forall j | 0 <= j < |p.entries| :: p.entries[j].width < 0x1_0000 && p.entries[j].height < 0x1_0000
    ensures var tkhd, size := TkhdTree(p).body, MaxSize(p.entries, |p.entries|);
            && Word(tkhd, 0) == 7 && Word(tkhd, 12) == 1 && Word(tkhd, 20) == Duration(p) % 0x1_0000_0000
            && Word(tkhd, 76) == size.0 * 0x1_0000 && Word(tkhd, 80) == size.1 * 0x1_0000
  {
    EntriesOk(p);
    DurationBound(p);
    hide ParamsOk, U32, Word, MaxSize, TkhdBody;
    var size := MaxSize(p.entries, |p.entries|);
    TkhdWords(p, size.0, size.1);
  }

  lemma TkhdWords(p: Params, width: nat, height: nat)
    requires p.creation < 0x1_0000_0000 && width < 0x1_0000 && height < 0x1_0000 && 0 <= Duration(p)
    ensures var tkhd := TkhdBody(p, width, height);
            && Word(tkhd, 0) == 7 && Word(tkhd, 12) == 1 && Word(tkhd, 20) == Duration(p) % 0x1_0000_0000
            && Word(tkhd, 76) == width * 0x1_0000 && Word(tkhd, 80) == height * 0x1_0000
  {
    assert U32(7) == [0, 0, 0, 7];
    hide U32, Word;
    var tkhd, c := TkhdBody(p, width, height), U32(p.creation);
    assert |TKHD_JUNK| == 52;
    TkhdParts(U32(7), c, U32(1), U32(0), U32(Duration(p) % 0x1_0000_0000), TKHD_JUNK, U32(width * 0x1_0000), U32(height * 0x1_0000));
    WordAt(tkhd, 0, 7);
    WordAt(tkhd, 12, 1);
    WordAt(tkhd, 20, Duration(p) % 0x1_0000_0000);
    WordAt(tkhd, 76, width * 0x1_0000);
    WordAt(tkhd, 80, height * 0x1_0000);
  }

  lemma TkhdParts(v: Bytes, c: Bytes, i: Bytes, z: Bytes, d: Bytes, j: Bytes, w: Bytes, h: Bytes)
    requires |v| == |c| == |i| == |z| == |d| == |w| == |h| == 4 && |j| == 52
    ensures var tkhd := v + c + c + i + z + d + j + w + h;
            At(tkhd, 0, v) && At(tkhd, 12, i) && At(tkhd, 20, d) && At(tkhd, 76, w) && At(tkhd, 80, h)
  {
    hide At;
    AtEnd([], v);
    assert [] + v == v;
    AtLonger(v, c, 0, v);
    AtLonger(v + c, c, 0, v);
    AtEnd(v + c + c, i);
    var a := v + c + c + i;
    AtLonger(v + c + c, i, 0, v);
    More(a, z, v, i);
    AtEnd(a + z, d);
    More(a + z, d, v, i);
    var b := a + z + d;
    More(b, j, v, i);
    AtLonger(b, j, 20, d);
    AtEnd(b + j, w);
    More(b + j, w, v, i);
    AtLonger(b + j, w, 20, d);
    AtEnd(b + j + w, h);
    More(b + j + w, h, v, i);
    AtLonger(b + j + w, h, 20, d);
    AtLonger(b + j + w, h, 76, w);
  }

  lemma More(data: Bytes, more: Bytes, v: Bytes, i: Bytes)
    requires At(data, 0, v) && At(data, 12, i)
    ensures At(data + more, 0, v) && At(data + more, 12, i)
  {
    AtLonger(data, more, 0, v);
    AtLonger(data, more, 12, i);
  }
}
