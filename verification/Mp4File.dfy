/** Building a virtual .mp4 file (server/src/mp4.rs:925-1237 and 1300-1730): headers go through the
    buffer, tables and sample data are slices made on demand. */
module Mp4File {
  import opened Base
  import opened BigEndian
  import opened BoxTree
  import opened Mp4Body
  import opened Mp4Boxes
  import opened SampleTables
  import opened TrackRuns
  import EditList

  const VIDEO_MINF_JUNK: Bytes := MINF + (VMHD_BOX + DINF_BOX)

  // -- a box being written -----------------------------------------------------------------

  /** Since a, an unfinished box was started: a length still to be filled in, the type and the body so
      far. */
  ghost predicate InBox(a: BodyState, s: BodyState, kind: Kind, body: Bytes) {
    && Ok_(a) && Ok_(s) && Content(s) == Content(a) + (U32(0) + (kind + body))
    && KeepsSpots(a, s) && Spot(s, |a.buf|, |Content(a)|, 4)
  }

  lemma Join3(a: Bytes, b: Bytes, c: Bytes)
    ensures (a + b) + c == a + (b + c)
  {
  }

  lemma BoxMore(a: BodyState, s: BodyState, t: BodyState, kind: Kind, body: Bytes, x: Bytes)
    requires InBox(a, s, kind, body) && Grows(s, t, x)
    ensures InBox(a, t, kind, body + x)
  {
    hide U32;
    Join3(kind, body, x);
    Join3(U32(0), kind + body, x);
    Join3(Content(a), U32(0) + (kind + body), x);
  }

  lemma BoxStart(a: BodyState, s: BodyState, t: BodyState, kind: Kind, body: Bytes)
    requires Grows(a, s, U32(0)) && Spot(s, |a.buf|, |Content(a)|, 4) && Grows(s, t, kind + body)
    ensures InBox(a, t, kind, body)
  {
    hide U32;
    Join3(Content(a), U32(0), kind + body);
  }

  lemma PutFirst(a: Bytes, x: Bytes, y: Bytes, rest: Bytes)
    requires |x| == |y|
    ensures Put(a + (x + rest), |a|, y) == a + (y + rest)
  {
  }

  /** Filling in the length completes the box. */
  lemma BoxDone(a: BodyState, s: BodyState, kind: Kind, body: Bytes)
    requires InBox(a, s, kind, body)
    ensures |a.buf| + 4 <= |s.buf| && |Content(s)| - |Content(a)| == 4 + |kind| + |body|
    ensures Grows(a, Filled(s, |a.buf|, U32((4 + |kind| + |body|) % 0x1_0000_0000)), Boxed(kind, body))
  {
    hide U32, Put, Content;
    var len := U32((4 + |kind| + |body|) % 0x1_0000_0000);
    FillContent(s, |a.buf|, |Content(a)|, len);
    PutFirst(Content(a), U32(0), len, kind + body);
  }

  lemma GrowsNone(s: BodyState)
    requires Ok_(s)
    ensures Grows(s, s, [])
  {
    assert Content(s) + [] == Content(s);
  }

  lemma GrowsBoth(a: BodyState, b: BodyState, c: BodyState, x: Bytes, y: Bytes)
    requires Grows(a, b, x) && Grows(b, c, y)
    ensures Grows(a, c, x + y)
  {
    Join3(Content(a), x, y);
  }

  lemma ContentLength(s: BodyState)
    requires Ok_(s)
    ensures |Content(s)| == s.len + (|s.buf| - s.unflushed)
  {
    RenderLength(s.pieces, s.unflushed, s.buf);
  }

  class FileBuilder {
    const p: Params
    var body: BodyState
    /** `media_duration_90k` */
    var duration: nat

    constructor (p: Params)
      ensures this.p == p && Ok_(body) && Content(body) == []
    {
      this.p := p;
      body, duration := BodyState([], 0, [], 0), 0;
    }

    // -- `BodyState` -----------------------------------------------------------------------

    /** `buf.extend_from_slice`, `append_u32`, `append_u64`. */
    method Extend(x: Bytes)
      requires Ok_(body)
      modifies this`body
      ensures Ok_(body) && Grows(old(body), body, x) && body.buf == old(body).buf + x
      ensures x != [] ==> Spot(body, |old(body).buf|, |Content(old(body))|, |x|)
    {
      Extended(body, x);
      body := body.(buf := body.buf + x);
    }

    /** `append_slice`: fails on an empty slice or one whose fields do not fit its packed form. */
    method AppendSlice(param: nat, x: Bytes) returns (ok: bool)
      requires Ok_(body) && body.unflushed == |body.buf|
      modifies this`body
      ensures if ok then Grows(old(body), body, x) && body.unflushed == |body.buf| else body == old(body)
      ensures ok <==> x != [] && Pack(old(body).len + |x|, 0, param).Some?
    {
      if x == [] || Pack(body.len + |x|, 0, param).None? {
        return false;
      }
      SliceGrows(body, param, x);
      body := body.(pieces := body.pieces + [Given(param, x)], len := body.len + |x|);
      return true;
    }

    /** `flush_buf`. */
    method FlushBuf() returns (ok: bool)
      requires Ok_(body)
      modifies this`body
      ensures if ok then Grows(old(body), body, []) && body.unflushed == |body.buf| else body == old(body)
    {
      if body.unflushed < |body.buf| {
        var n := |body.buf| - body.unflushed;
        if Pack(body.len + n, 1, body.unflushed).None? {
          return false;
        }
        FlushGrows(body);
        body := BodyState(body.pieces + [Buf(body.unflushed, n)], body.len + n, body.buf, |body.buf|);
      } else {
        GrowsNone(body);
      }
      return true;
    }

    /** `append_static`. */
    method AppendStatic(which: nat, x: Bytes) returns (ok: bool)
      requires Ok_(body)
      modifies this`body
      ensures Ok_(body) && (ok ==> Grows(old(body), body, x))
    {
      ok := FlushBuf();
      if ok {
        ghost var s := body;
        ok := AppendSlice(which, x);
        if ok {
          GrowsBoth(old(body), s, body, [], x);
          assert [] + x == x;
        }
      }
    }

    // -- `write_length!` -------------------------------------------------------------------

    /** The placeholder and what follows it. */
    method Begin(kind: Kind, x: Bytes) returns (lenPos: nat, lenStart: nat)
      requires Ok_(body)
      modifies this`body
      ensures lenPos == |old(body).buf| && lenStart == |Content(old(body))|
      ensures Ok_(body) && InBox(old(body), body, kind, x)
    {
      hide U32;
      ContentLength(body);
      lenPos := |body.buf|;
      lenStart := body.len + |body.buf| - body.unflushed;
      ghost var a := body;
      Extend(U32(0));
      ghost var s := body;
      Extend(kind + x);
      BoxStart(a, s, body, kind, x);
    }

    /** Fills in the length of everything since the placeholder. */
    method End(lenPos: nat, lenStart: nat, ghost a: BodyState, ghost kind: Kind, ghost x: Bytes)
      requires InBox(a, body, kind, x) && lenPos == |a.buf| && lenStart == |Content(a)|
      modifies this`body
      ensures Ok_(body) && Grows(a, body, Boxed(kind, x))
    {
      hide U32, Put;
      ContentLength(body);
      BoxDone(a, body, kind, x);
      var lenEnd := body.len + |body.buf| - body.unflushed;
      body := body.(buf := Put(body.buf, lenPos, U32((lenEnd - lenStart) % 0x1_0000_0000)));
    }

    /** A field of the open box. */
    method Field(x: Bytes, ghost a: BodyState, ghost kind: Kind, ghost done: Bytes)
      requires InBox(a, body, kind, done)
      modifies this`body
      ensures Ok_(body) && InBox(a, body, kind, done + x)
    {
      ghost var s := body;
      Extend(x);
      BoxMore(a, s, body, kind, done, x);
    }

    method StaticField(which: nat, x: Bytes, ghost a: BodyState, ghost kind: Kind, ghost done: Bytes) returns (ok: bool)
      requires InBox(a, body, kind, done)
      modifies this`body
      ensures Ok_(body) && (ok ==> InBox(a, body, kind, done + x))
    {
      ghost var s := body;
      ok := AppendStatic(which, x);
      if ok {
        BoxMore(a, s, body, kind, done, x);
      }
    }

    method FlushField(ghost a: BodyState, ghost kind: Kind, ghost done: Bytes) returns (ok: bool)
      requires InBox(a, body, kind, done)
      modifies this`body
      ensures Ok_(body) && (ok ==> InBox(a, body, kind, done) && body.unflushed == |body.buf|)
    {
      ghost var s := body;
      ok := FlushBuf();
      if ok {
        BoxMore(a, s, body, kind, done, []);
        assert done + [] == done;
      }
    }

    method SliceField(param: nat, x: Bytes, ghost a: BodyState, ghost kind: Kind, ghost done: Bytes) returns (ok: bool)
      requires InBox(a, body, kind, done) && body.unflushed == |body.buf|
      modifies this`body
      ensures Ok_(body) && body.unflushed == |body.buf| && (ok ==> InBox(a, body, kind, done + x))
    {
      ghost var s := body;
      ok := AppendSlice(param, x);
      if ok {
        BoxMore(a, s, body, kind, done, x);
      }
    }

    // -- header boxes ----------------------------------------------------------------------

    /** `append_mvhd`. */
    method AppendMvhd() returns (ok: bool)
      requires Ok_(body) && p.creation < 0x1_0000_0000 && duration == Duration(p) < 0x1_0000_0000_0000_0000
      modifies this`body
      ensures Ok_(body) && (ok ==> Grows(old(body), body, Serialize(Leaf(MVHD, MvhdBody(p)))))
    {
      hide U32, U64, InBox, Grows, Content, Ok_;
      ghost var a, d := body, VERSION1;
      var pos, start := Begin(MVHD, VERSION1);
      Field(U64(p.creation), a, MVHD, d);
      d := d + U64(p.creation);
      Field(U64(p.creation), a, MVHD, d);
      d := d + U64(p.creation);
      Field(U32(90000), a, MVHD, d);
      d := d + U32(90000);
      Field(U64(duration), a, MVHD, d);
      d := d + U64(duration);
      ok := StaticField(4, MVHD_JUNK, a, MVHD, d);
      if !ok {
        return;
      }
      d := d + MVHD_JUNK;
      Field(U32(2), a, MVHD, d);
      d := d + U32(2);
      End(pos, start, a, MVHD, d);
      LeafBytes(MVHD, d);
    }

    /** `append_video_tkhd`. */
    method AppendTkhd() returns (ok: bool)
      requires Ok_(body) && ParamsOk(p) && duration == Duration(p)
      modifies this`body
      ensures Ok_(body) && (ok ==> p.entries != [] && Grows(old(body), body, Serialize(TkhdTree(p))))
    {
      var creation, shown := p.creation, duration % 0x1_0000_0000;
      hide U32, InBox, Grows, Content, Ok_;
      ghost var a, d := body, [0, 0, 0, 7];
      var pos, start := Begin(TKHD, [0, 0, 0, 7]);
      Field(U32(creation), a, TKHD, d);
      d := d + U32(creation);
      Field(U32(creation), a, TKHD, d);
      d := d + U32(creation);
      Field(U32(1), a, TKHD, d);
      d := d + U32(1);
      Field(U32(0), a, TKHD, d);
      d := d + U32(0);
      Field(U32(shown), a, TKHD, d);
      d := d + U32(shown);
      ok := StaticField(5, TKHD_JUNK, a, TKHD, d);
      if !ok || p.entries == [] {
        return false;
      }
      d := d + TKHD_JUNK;
      var size := Largest(p.entries);
      Field(U32(size.0 * 0x1_0000), a, TKHD, d);
      d := d + U32(size.0 * 0x1_0000);
      Field(U32(size.1 * 0x1_0000), a, TKHD, d);
      d := d + U32(size.1 * 0x1_0000);
      End(pos, start, a, TKHD, d);
      LeafBytes(TKHD, d);
    }

    /** `append_mdhd`. */
    method AppendMdhd() returns (ok: bool)
      requires Ok_(body) && p.creation < 0x1_0000_0000 && duration == Duration(p) < 0x1_0000_0000_0000_0000
      modifies this`body
      ensures Ok_(body) && (ok ==> Grows(old(body), body, Serialize(Leaf(MDHD, MdhdBody(p)))))
    {
      hide U32, U64, InBox, Grows, Content, Ok_;
      ghost var a, d := body, VERSION1;
      var pos, start := Begin(MDHD, VERSION1);
      Field(U64(p.creation), a, MDHD, d);
      d := d + U64(p.creation);
      Field(U64(p.creation), a, MDHD, d);
      d := d + U64(p.creation);
      Field(U32(90000), a, MDHD, d);
      d := d + U32(90000);
      Field(U64(duration), a, MDHD, d);
      d := d + U64(duration);
      Field(U32(0x55c4_0000), a, MDHD, d);
      d := d + U32(0x55c4_0000);
      End(pos, start, a, MDHD, d);
      LeafBytes(MDHD, d);
      ok := true;
    }

    /** The writing half of `maybe_append_video_edts`. */
    method AppendEdts(es: seq<EditList.Entry>)
      requires Ok_(body)
      modifies this`body
      ensures Ok_(body) && Grows(old(body), body, Serialize(EdtsTree(es)))
    {
      hide U32, U64, InBox, Grows, Content, Ok_, Serialize;
      ghost var a := body;
      var pos, start := Begin(EDTS, []);
      ghost var b := body;
      ghost var d := VERSION1;
      var pos2, start2 := Begin(ELST, VERSION1);
      Field(U32(|es| % 0x1_0000_0000), b, ELST, d);
      d := d + U32(|es| % 0x1_0000_0000);
      assert d + ElstEntries(es, 0) == d;
      for i := 0 to |es|
        invariant Ok_(body) && InBox(b, body, ELST, d + ElstEntries(es, i))
      {
        var e := U64(es[i].duration % 0x1_0000_0000_0000_0000) + U64(es[i].mediaTime % 0x1_0000_0000_0000_0000) + [0, 1, 0, 0];
        Field(e, b, ELST, d + ElstEntries(es, i));
        Join3(d, ElstEntries(es, i), e);
      }
      d := d + ElstEntries(es, |es|);
      End(pos2, start2, b, ELST, d);
      LeafBytes(ELST, d);
      FirstKid(a, b, body, EDTS, Leaf(ELST, d));
      End(pos, start, a, EDTS, SerializeAll([Leaf(ELST, d)]));
      NodeBytes(EDTS, [Leaf(ELST, d)]);
    }

    // -- sample tables ---------------------------------------------------------------------

    /** `append_video_stsd`. */
    method AppendStsd() returns (ok: bool)
      requires Ok_(body) && ParamsOk(p)
      modifies this`body
      ensures Ok_(body) && (ok ==> Grows(old(body), body, Serialize(StsdTree(p))))
    {
      var n := |p.entries|;
      assert n < 0x1_0000_0000;
      hide U32, InBox, Grows, Content, Ok_, ParamsOk;
      ghost var a, d := body, ZERO4;
      var pos, start := Begin(STSD, ZERO4);
      Field(U32(n), a, STSD, d);
      d := d + U32(n);
      ok := FlushField(a, STSD, d);
      if !ok {
        return;
      }
      assert d + EntriesAll(p.entries, 0) == d;
      for i := 0 to n
        invariant Ok_(body) && body.unflushed == |body.buf| && InBox(a, body, STSD, d + EntriesAll(p.entries, i))
      {
        ok := SliceField(i, p.entries[i].data, a, STSD, d + EntriesAll(p.entries, i));
        if !ok {
          return;
        }
        Join3(d, EntriesAll(p.entries, i), p.entries[i].data);
      }
      d := d + EntriesAll(p.entries, n);
      End(pos, start, a, STSD, d);
      LeafBytes(STSD, d);
      return true;
    }

    /** The slices of one table, one a segment. */
    method SttsSlices(ghost a: BodyState, ghost d: Bytes) returns (ok: bool)
      requires ParamsOk(p) && InBox(a, body, STTS, d)
      modifies this`body
      ensures Ok_(body) && (ok ==> InBox(a, body, STTS, d + SttsAll(p, |p.segs|)))
    {
      hide U32, InBox, Grows, Content, Ok_, ParamsOk;
      assert d + SttsAll(p, 0) == d;
      if p.segs == [] {
        InBoxOk(a, body, STTS, d);
        return true;
      }
      ok := FlushField(a, STTS, d);
      if !ok {
        return;
      }
      for i := 0 to |p.segs|
        invariant Ok_(body) && body.unflushed == |body.buf| && InBox(a, body, STTS, d + SttsAll(p, i))
      {
        SegTabled(p, i);
        SegNotEmpty(p, i);
        var x := SttsCut(p.segs[i].frames, p.segs[i].part.end);
        ok := SliceField(i, x, a, STTS, d + SttsAll(p, i));
        if !ok {
          return;
        }
        Join3(d, SttsAll(p, i), x);
      }
      return true;
    }

    /** `append_video_stts`. */
    method AppendStts() returns (ok: bool)
      requires Ok_(body) && ParamsOk(p)
      modifies this`body
      ensures Ok_(body) && (ok ==> Grows(old(body), body, Serialize(SttsTree(p))))
    {
      var n := CountFrames(p.segs, |p.segs|);
      hide U32, InBox, Grows, Content, Ok_, ParamsOk, CountFrames;
      ghost var a, d := body, ZERO4;
      var pos, start := Begin(STTS, ZERO4);
      Field(U32(n), a, STTS, d);
      d := d + U32(n);
      ok := SttsSlices(a, d);
      if ok {
        d := d + SttsAll(p, |p.segs|);
        End(pos, start, a, STTS, d);
        LeafBytes(STTS, d);
      }
    }

    /** `append_video_stsc`. */
    method AppendStsc() returns (ok: bool)
      requires Ok_(body) && ParamsOk(p)
      modifies this`body
      ensures Ok_(body) && (ok ==> Grows(old(body), body, Serialize(StscTree(p))))
    {
      var n := |p.segs|;
      SmallCounts(p);
      hide U32, InBox, Grows, Content, Ok_, ParamsOk, StscEntry, Stsc;
      ghost var a, d := body, ZERO4;
      var pos, start := Begin(STSC, ZERO4);
      Field(U32(n), a, STSC, d);
      d := d + U32(n);
      StscFields(a, d);
      d := d + Stsc(p, n);
      End(pos, start, a, STSC, d);
      LeafBytes(STSC, d);
      return true;
    }

    /** Its entries, one a segment. */
    method StscFields(ghost a: BodyState, ghost d: Bytes)
      requires |p.segs| < 0x1_0000_0000 && |p.entries| < 0x1_0000_0000 && InBox(a, body, STSC, d)
      modifies this`body
      ensures Ok_(body) && InBox(a, body, STSC, d + Stsc(p, |p.segs|))
    {
      hide InBox, Grows, Content, Ok_, StscEntry;
      assert d + Stsc(p, 0) == d;
      InBoxOk(a, body, STSC, d);
      for i := 0 to |p.segs|
        invariant Ok_(body) && InBox(a, body, STSC, d + Stsc(p, i))
      {
        var x := StscEntry(p, i);
        Field(x, a, STSC, d + Stsc(p, i));
        Join3(d, Stsc(p, i), x);
      }
    }

    method StszSlices(ghost a: BodyState, ghost d: Bytes) returns (ok: bool)
      requires ParamsOk(p) && InBox(a, body, STSZ, d)
      modifies this`body
      ensures Ok_(body) && (ok ==> InBox(a, body, STSZ, d + StszAll(p, |p.segs|)))
    {
      hide U32, InBox, Grows, Content, Ok_, ParamsOk;
      assert d + StszAll(p, 0) == d;
      if p.segs == [] {
        InBoxOk(a, body, STSZ, d);
        return true;
      }
      ok := FlushField(a, STSZ, d);
      if !ok {
        return;
      }
      for i := 0 to |p.segs|
        invariant Ok_(body) && body.unflushed == |body.buf| && InBox(a, body, STSZ, d + StszAll(p, i))
      {
        SegTabled(p, i);
        var x := Stsz(p.segs[i].frames, |p.segs[i].frames|);
        ok := SliceField(i, x, a, STSZ, d + StszAll(p, i));
        if !ok {
          return;
        }
        Join3(d, StszAll(p, i), x);
      }
      return true;
    }

    /** `append_video_stsz`. */
    method AppendStsz() returns (ok: bool)
      requires Ok_(body) && ParamsOk(p)
      modifies this`body
      ensures Ok_(body) && (ok ==> Grows(old(body), body, Serialize(StszTree(p))))
    {
      var n := CountFrames(p.segs, |p.segs|);
      hide U32, InBox, Grows, Content, Ok_, ParamsOk, CountFrames;
      ghost var a, d := body, ZERO4 + ZERO4;
      var pos, start := Begin(STSZ, ZERO4 + ZERO4);
      Field(U32(n), a, STSZ, d);
      d := d + U32(n);
      ok := StszSlices(a, d);
      if ok {
        d := d + StszAll(p, |p.segs|);
        End(pos, start, a, STSZ, d);
        LeafBytes(STSZ, d);
      }
    }

    /** `append_video_co64`: the offsets are rendered from the position of the first sample, which is
        only known once the headers are complete. */
    method AppendCo64(initialPos: nat) returns (ok: bool)
      requires Ok_(body) && ParamsOk(p)
      modifies this`body
      ensures Ok_(body) && (ok ==> Grows(old(body), body, Serialize(Co64Tree(p, initialPos))))
    {
      var n := |p.segs|;
      var offsets := Co64(p.segs, n, initialPos);
      hide U32, InBox, Grows, Content, Ok_, ParamsOk, Co64;
      ghost var a, d := body, ZERO4;
      var pos, start := Begin(CO64, ZERO4);
      Field(U32(n), a, CO64, d);
      d := d + U32(n);
      if p.segs != [] {
        ok := FlushField(a, CO64, d);
        if !ok {
          return;
        }
        ok := SliceField(0, offsets, a, CO64, d);
        if !ok {
          return;
        }
      } else {
        assert offsets == [] && d + [] == d;
      }
      d := d + offsets;
      End(pos, start, a, CO64, d);
      LeafBytes(CO64, d);
      return true;
    }

    method StssSlices(ghost a: BodyState, ghost d: Bytes) returns (ok: bool)
      requires ParamsOk(p) && InBox(a, body, STSS, d)
      modifies this`body
      ensures Ok_(body) && (ok ==> InBox(a, body, STSS, d + StssAll(p, |p.segs|)))
    {
      hide U32, InBox, Grows, Content, Ok_, ParamsOk;
      assert d + StssAll(p, 0) == d;
      if p.segs == [] {
        InBoxOk(a, body, STSS, d);
        return true;
      }
      ok := FlushField(a, STSS, d);
      if !ok {
        return;
      }
      for i := 0 to |p.segs|
        invariant Ok_(body) && body.unflushed == |body.buf| && InBox(a, body, STSS, d + StssAll(p, i))
      {
        SegTabled(p, i);
        var x := Stss(p.segs[i].frames, FirstFrame(p.segs, i), |p.segs[i].frames|);
        ok := SliceField(i, x, a, STSS, d + StssAll(p, i));
        if !ok {
          return;
        }
        Join3(d, StssAll(p, i), x);
      }
      return true;
    }

    /** `append_video_stss`. */
    method AppendStss() returns (ok: bool)
      requires Ok_(body) && ParamsOk(p)
      modifies this`body
      ensures Ok_(body) && (ok ==> Grows(old(body), body, Serialize(StssTree(p))))
    {
      var n := CountKeys(p.segs, |p.segs|) % 0x1_0000_0000;
      hide U32, InBox, Grows, Content, Ok_, ParamsOk, CountKeys;
      ghost var a, d := body, ZERO4;
      var pos, start := Begin(STSS, ZERO4);
      Field(U32(n), a, STSS, d);
      d := d + U32(n);
      ok := StssSlices(a, d);
      if ok {
        d := d + StssAll(p, |p.segs|);
        End(pos, start, a, STSS, d);
        LeafBytes(STSS, d);
      }
    }

    // -- container boxes -------------------------------------------------------------------

    /** Starts a box that only holds boxes. */
    method BeginNode(kind: Kind) returns (lenPos: nat, lenStart: nat)
      requires Ok_(body)
      modifies this`body
      ensures lenPos == |old(body).buf| && lenStart == |Content(old(body))|
      ensures Ok_(body) && InBox(old(body), body, kind, SerializeAll([]))
    {
      SerializeNone();
      lenPos, lenStart := Begin(kind, []);
    }

    method EndNode(lenPos: nat, lenStart: nat, ghost a: BodyState, ghost kind: Kind, ghost kids: seq<Tree>)
      requires InBox(a, body, kind, SerializeAll(kids)) && lenPos == |a.buf| && lenStart == |Content(a)|
      modifies this`body
      ensures Ok_(body) && Grows(a, body, Serialize(Node(kind, kids)))
    {
      NodeBytes(kind, kids);
      End(lenPos, lenStart, a, kind, SerializeAll(kids));
    }

    /** `append_video_stbl`. */
    method AppendStbl(init: bool, initialPos: nat) returns (ok: bool)
      requires Ok_(body) && ParamsOk(p)
      modifies this`body
      ensures Ok_(body) && (ok ==> Grows(old(body), body, Serialize(Node(STBL, StblKids(p, init, initialPos)))))
    {
      hide InBox, Grows, Content, Ok_, Serialize, SerializeAll, ParamsOk, StsdTree, SttsTree, StscTree, StszTree, Co64Tree, StssTree;
      ghost var a := body;
      var pos, start := BeginNode(STBL);
      ghost var s, kids: seq<Tree> := body, [];
      ok := AppendStsd();
      if !ok { return; }
      NextKid(a, s, body, STBL, kids, StsdTree(p));
      s, kids := body, kids + [StsdTree(p)];
      ok := AppendStts();
      if !ok { return; }
      NextKid(a, s, body, STBL, kids, SttsTree(p));
      s, kids := body, kids + [SttsTree(p)];
      ok := AppendStsc();
      if !ok { return; }
      NextKid(a, s, body, STBL, kids, StscTree(p));
      s, kids := body, kids + [StscTree(p)];
      ok := AppendStsz();
      if !ok { return; }
      NextKid(a, s, body, STBL, kids, StszTree(p));
      s, kids := body, kids + [StszTree(p)];
      ok := AppendCo64(initialPos);
      if !ok { return; }
      NextKid(a, s, body, STBL, kids, Co64Tree(p, initialPos));
      s, kids := body, kids + [Co64Tree(p, initialPos)];
      if !init {
        ok := AppendStss();
        if !ok { return; }
        NextKid(a, s, body, STBL, kids, StssTree(p));
        kids := kids + [StssTree(p)];
      }
      assert kids == StblKids(p, init, initialPos);
      EndNode(pos, start, a, STBL, kids);
    }

    /** `append_video_minf`: a static string holds the box's type and its first two boxes. */
    method AppendMinf(init: bool, initialPos: nat) returns (ok: bool)
      requires Ok_(body) && ParamsOk(p)
      modifies this`body
      ensures Ok_(body) && (ok ==> Grows(old(body), body, Serialize(Node(MINF, MinfKids(p, init, initialPos)))))
    {
      hide U32, InBox, Grows, Serialize, SerializeAll, ParamsOk, StblKids;
      ghost var a := body;
      ContentLength(body);
      var pos, start := |body.buf|, body.len + |body.buf| - body.unflushed;
      Extend(U32(0));
      ghost var s := body;
      ok := AppendStatic(6, VIDEO_MINF_JUNK);
      if !ok { return; }
      MinfStart();
      BoxStart(a, s, body, MINF, SerializeAll([VmhdTree(), DinfTree()]));
      s := body;
      ok := AppendStbl(init, initialPos);
      if !ok { return; }
      ghost var kids := [VmhdTree(), DinfTree()];
      NextKid(a, s, body, MINF, kids, Node(STBL, StblKids(p, init, initialPos)));
      kids := kids + [Node(STBL, StblKids(p, init, initialPos))];
      assert kids == MinfKids(p, init, initialPos);
      EndNode(pos, start, a, MINF, kids);
    }

    /** `append_video_mdia`. */
    method AppendMdia(init: bool, initialPos: nat) returns (ok: bool)
      requires Ok_(body) && ParamsOk(p) && duration == Duration(p)
      modifies this`body
      ensures Ok_(body) && (ok ==> Grows(old(body), body, Serialize(Node(MDIA, MdiaKids(p, init, initialPos)))))
    {
      assert p.creation < 0x1_0000_0000 && duration < 0x1_0000_0000_0000_0000;
      hide InBox, Grows, Content, Ok_, Serialize, SerializeAll, ParamsOk, MdhdBody, MinfKids, HdlrTree;
      ghost var a := body;
      var pos, start := BeginNode(MDIA);
      ghost var s, kids: seq<Tree> := body, [];
      ok := AppendMdhd();
      if !ok { return; }
      NextKid(a, s, body, MDIA, kids, Leaf(MDHD, MdhdBody(p)));
      s, kids := body, kids + [Leaf(MDHD, MdhdBody(p))];
      ok := AppendStatic(2, VIDEO_HDLR);
      if !ok { return; }
      StaticBoxes();
      NextKid(a, s, body, MDIA, kids, HdlrTree());
      s, kids := body, kids + [HdlrTree()];
      ok := AppendMinf(init, initialPos);
      if !ok { return; }
      NextKid(a, s, body, MDIA, kids, Node(MINF, MinfKids(p, init, initialPos)));
      kids := kids + [Node(MINF, MinfKids(p, init, initialPos))];
      assert kids == MdiaKids(p, init, initialPos);
      EndNode(pos, start, a, MDIA, kids);
    }

    /** `append_video_trak`, with `maybe_append_video_edts`. */
    method AppendTrak(init: bool, initialPos: nat) returns (ok: bool, edits: Option<seq<EditList.Entry>>)
      requires Ok_(body) && ParamsOk(p) && duration == Duration(p)
      modifies this`body
      ensures Ok_(body)
      ensures ok ==> EditList.EditsOk(Parts(p.segs), edits) && p.entries != []
                     && Grows(old(body), body, Serialize(Node(TRAK, TrakKids(p, edits, init, initialPos))))
    {
      hide InBox, Grows, Content, Ok_, Serialize, SerializeAll, ParamsOk, MdiaKids, EditList.EditsOk, TkhdTree, EdtsTree;
      edits := None;
      ghost var a := body;
      var pos, start := BeginNode(TRAK);
      ghost var s, kids: seq<Tree> := body, [];
      ok := AppendTkhd();
      if !ok { return; }
      EntriesOk(p);
      NextKid(a, s, body, TRAK, kids, TkhdTree(p));
      s, kids := body, kids + [TkhdTree(p)];
      var e := EditList.VideoEdits(Parts(p.segs));
      if e.Err? { return false, edits; }
      edits := e.value;
      if edits.Some? {
        AppendEdts(edits.value);
        NextKid(a, s, body, TRAK, kids, EdtsTree(edits.value));
        s, kids := body, kids + [EdtsTree(edits.value)];
      }
      ok := AppendMdia(init, initialPos);
      if !ok { return; }
      NextKid(a, s, body, TRAK, kids, Node(MDIA, MdiaKids(p, init, initialPos)));
      kids := kids + [Node(MDIA, MdiaKids(p, init, initialPos))];
      assert kids == TrakKids(p, edits, init, initialPos);
      EndNode(pos, start, a, TRAK, kids);
    }

    /** `append_mvex`. */
    method AppendMvex()
      requires Ok_(body)
      modifies this`body
      ensures Ok_(body) && Grows(old(body), body, Serialize(Node(MVEX, [Leaf(TREX, TrexBody())])))
    {
      hide InBox, Grows, Content, Ok_, Serialize, SerializeAll, TrexBody;
      ghost var a := body;
      var pos, start := BeginNode(MVEX);
      ghost var s := body;
      var pos2, start2 := Begin(TREX, TrexBody());
      End(pos2, start2, s, TREX, TrexBody());
      LeafBytes(TREX, TrexBody());
      NextKid(a, s, body, MVEX, [], Leaf(TREX, TrexBody()));
      assert [] + [Leaf(TREX, TrexBody())] == [Leaf(TREX, TrexBody())];
      EndNode(pos, start, a, MVEX, [Leaf(TREX, TrexBody())]);
    }

    /** `append_moov`, without a subtitle track. */
    method AppendMoov(init: bool, initialPos: nat) returns (ok: bool, edits: Option<seq<EditList.Entry>>)
      requires Ok_(body) && ParamsOk(p) && duration == Duration(p)
      modifies this`body
      ensures Ok_(body)
      ensures ok ==> EditList.EditsOk(Parts(p.segs), edits) && p.entries != []
                     && Grows(old(body), body, Serialize(MoovTree(p, edits, init, initialPos)))
    {
      assert p.creation < 0x1_0000_0000 && duration < 0x1_0000_0000_0000_0000;
      hide InBox, Grows, Content, Ok_, Serialize, SerializeAll, ParamsOk, TrakKids, EditList.EditsOk, MvhdBody, TrexBody;
      edits := None;
      ghost var a := body;
      var pos, start := BeginNode(MOOV);
      ghost var s, kids: seq<Tree> := body, [];
      ok := AppendMvhd();
      if !ok { return; }
      NextKid(a, s, body, MOOV, kids, Leaf(MVHD, MvhdBody(p)));
      s, kids := body, kids + [Leaf(MVHD, MvhdBody(p))];
      ok, edits := AppendTrak(init, initialPos);
      if !ok { return; }
      NextKid(a, s, body, MOOV, kids, Node(TRAK, TrakKids(p, edits, init, initialPos)));
      s, kids := body, kids + [Node(TRAK, TrakKids(p, edits, init, initialPos))];
      if init {
        AppendMvex();
        NextKid(a, s, body, MOOV, kids, Node(MVEX, [Leaf(TREX, TrexBody())]));
        kids := kids + [Node(MVEX, [Leaf(TREX, TrexBody())])];
      } else {
        assert kids + [] == kids;
      }
      MoovKids(p, edits, init, initialPos, kids);
      EndNode(pos, start, a, MOOV, kids);
    }

    // -- fragments -------------------------------------------------------------------------

    /** `append_truns`: one slice a segment, rendered from the positions of its samples. */
    method AppendTruns(initialPos: nat, ghost a: BodyState, ghost d: Bytes) returns (ok: bool)
      requires ParamsOk(p) && InBox(a, body, TRAF, d)
      modifies this`body
      ensures Ok_(body) && (ok ==> InBox(a, body, TRAF, d + AllRuns(TrunsAll(p, |p.segs|, initialPos))))
    {
      hide InBox, Grows, Content, Ok_, ParamsOk, AllRuns, SegRuns;
      TrunsNone(p, initialPos);
      assert d + [] == d;
      ok := FlushField(a, TRAF, d);
      if !ok { return; }
      for i := 0 to |p.segs|
        invariant Ok_(body) && body.unflushed == |body.buf|
        invariant InBox(a, body, TRAF, d + AllRuns(TrunsAll(p, i, initialPos)))
      {
        var x := AllRuns(SegRuns(p, i, initialPos));
        ok := SliceField(i, x, a, TRAF, d + AllRuns(TrunsAll(p, i, initialPos)));
        if !ok { return; }
        Join3(d, AllRuns(TrunsAll(p, i, initialPos)), x);
        TrunsNext(p, i, initialPos);
      }
      return true;
    }

    /** `append_moof`. */
    method AppendMoof(initialPos: nat) returns (ok: bool)
      requires Ok_(body) && ParamsOk(p)
      modifies this`body
      ensures Ok_(body) && (ok ==> Grows(old(body), body, Serialize(MoofTree(p, initialPos))))
    {
      hide U32, InBox, Grows, Content, Ok_, Serialize, SerializeAll, ParamsOk, TrafKids;
      ghost var a := body;
      var pos, start := BeginNode(MOOF);
      ghost var s := body;
      var pos2, start2 := Begin(MFHD, ZERO4);
      Field(U32(1), s, MFHD, ZERO4);
      End(pos2, start2, s, MFHD, ZERO4 + U32(1));
      LeafBytes(MFHD, ZERO4 + U32(1));
      NextKid(a, s, body, MOOF, [], Leaf(MFHD, ZERO4 + U32(1)));
      ghost var kids := [] + [Leaf(MFHD, ZERO4 + U32(1))];
      s := body;
      ok := AppendTraf(initialPos);
      if !ok { return; }
      NextKid(a, s, body, MOOF, kids, Node(TRAF, TrafKids(p, initialPos)));
      kids := kids + [Node(TRAF, TrafKids(p, initialPos))];
      assert Node(MOOF, kids) == MoofTree(p, initialPos);
      EndNode(pos, start, a, MOOF, kids);
    }

    method AppendTraf(initialPos: nat) returns (ok: bool)
      requires Ok_(body) && ParamsOk(p)
      modifies this`body
      ensures Ok_(body) && (ok ==> Grows(old(body), body, Serialize(Node(TRAF, TrafKids(p, initialPos)))))
    {
      hide U32, InBox, Grows, Content, Ok_, Serialize, SerializeAll, ParamsOk;
      var tfhd := [0, 2, 0, 0, 0, 0, 0, 1];
      ghost var a := body;
      var pos, start := BeginNode(TRAF);
      ghost var s, kids: seq<Tree> := body, [];
      var pos2, start2 := Begin(TFHD, tfhd);
      End(pos2, start2, s, TFHD, tfhd);
      LeafBytes(TFHD, tfhd);
      NextKid(a, s, body, TRAF, kids, Leaf(TFHD, tfhd));
      s, kids := body, kids + [Leaf(TFHD, tfhd)];
      pos2, start2 := Begin(TFDT, ZERO4 + ZERO4);
      End(pos2, start2, s, TFDT, ZERO4 + ZERO4);
      LeafBytes(TFDT, ZERO4 + ZERO4);
      NextKid(a, s, body, TRAF, kids, Leaf(TFDT, ZERO4 + ZERO4));
      kids := kids + [Leaf(TFDT, ZERO4 + ZERO4)];
      ok := AppendTruns(initialPos, a, SerializeAll(kids));
      if !ok { return; }
      assert kids + RunTrees(TrunsAll(p, |p.segs|, initialPos)) == TrafKids(p, initialPos);
      RunTreesBytes(TrunsAll(p, |p.segs|, initialPos));
      SerializeBoth(kids, RunTrees(TrunsAll(p, |p.segs|, initialPos)));
      EndNode(pos, start, a, TRAF, TrafKids(p, initialPos));
    }

    // -- sample data -----------------------------------------------------------------------

    /** `append_mdat_contents`, without subtitles. */
    method AppendContents() returns (ok: bool)
      requires Ok_(body) && body.unflushed == |body.buf|
      modifies this`body
      ensures Ok_(body)
      ensures ok ==> Grows(old(body), body, DataAll(p.segs, |p.segs|)) && body.unflushed == |body.buf|
    {
      hide Grows, Content, Ok_;
      ghost var a := body;
      GrowsNone(body);
      for i := 0 to |p.segs|
        invariant Ok_(body) && body.unflushed == |body.buf| && Grows(a, body, DataAll(p.segs, i))
      {
        ghost var s := body;
        ok := AppendSlice(i, p.segs[i].data);
        if !ok { return; }
        GrowsBoth(a, s, body, DataAll(p.segs, i), p.segs[i].data);
        GrowsOk(s, body, p.segs[i].data);
      }
      return true;
    }

    /** `append_normal_mdat`: the large form. */
    method AppendNormalMdat() returns (ok: bool, initialPos: nat)
      requires Ok_(body)
      modifies this`body
      ensures Ok_(body)
      ensures ok ==> Grows(old(body), body, BigBox(MDAT, DataAll(p.segs, |p.segs|))) && body.unflushed == |body.buf|
      ensures ok ==> initialPos == |Content(old(body))| + 16
    {
      hide U32, U64, Grows, Content, Ok_, Spot, Put, DataAll;
      initialPos := 0;
      ghost var a := body;
      Extend(U32(1) + MDAT);
      ghost var b := body;
      Extend(ZERO4 + ZERO4);
      ghost var c := body;
      var lenPos := |body.buf| - 8;
      ok := FlushBuf();
      if !ok { return; }
      GrowsOk(c, body, []);
      initialPos := body.len;
      ghost var d := body;
      ok := AppendContents();
      if !ok { return; }
      ghost var data := DataAll(p.segs, |p.segs|);
      MdatLengths(a, b, c, d, body, U32(1) + MDAT, ZERO4 + ZERO4, data);
      var len := U64((16 + body.len - initialPos) % 0x1_0000_0000_0000_0000);
      GrowsBoth(c, d, body, [], data);
      FillLater(a, b, c, body, U32(1) + MDAT, ZERO4 + ZERO4, [] + data, len);
      NormalMdatBytes(data);
      body := body.(buf := Put(body.buf, lenPos, len));
    }

    /** `append_media_mdat`: the small form. */
    method AppendMediaMdat() returns (ok: bool, initialPos: nat)
      requires Ok_(body)
      modifies this`body
      ensures Ok_(body)
      ensures ok ==> Grows(old(body), body, Boxed(MDAT, DataAll(p.segs, |p.segs|))) && body.unflushed == |body.buf|
      ensures ok ==> initialPos == |Content(old(body))| + 8
    {
      hide U32, Grows, Content, Ok_, Spot, Put, DataAll;
      initialPos := 0;
      ghost var a := body;
      var lenPos := |body.buf|;
      Extend(ZERO4);
      ghost var c := body;
      Extend(MDAT);
      ghost var c2 := body;
      ok := FlushBuf();
      if !ok { return; }
      GrowsOk(c2, body, []);
      initialPos := body.len;
      ghost var d := body;
      ok := AppendContents();
      if !ok { return; }
      ghost var data := DataAll(p.segs, |p.segs|);
      MdatLengths(a, c, c2, d, body, ZERO4, MDAT, data);
      var len := U32((8 + body.len - initialPos) % 0x1_0000_0000);
      GrowsBoth(c, c2, d, MDAT, []);
      GrowsBoth(c, d, body, MDAT + [], data);
      GrowsNone(a);
      FillLater(a, a, c, body, [], ZERO4, MDAT + [] + data, len);
      MediaMdatBytes(data);
      body := body.(buf := Put(body.buf, lenPos, len));
    }

    /** `build`. The offsets in co64 and the truns are rendered from the position `pos`. */
    method Build(t: FileType, pos: nat) returns (ok: bool, first: nat, edits: Option<seq<EditList.Entry>>)
      requires Ok_(body) && Content(body) == [] && ParamsOk(p)
      modifies this
      ensures ok ==>
                && Ok_(body) && body.unflushed == |body.buf| && BuildDone(p, t, edits, pos, first)
                && Content(body) == FileBytes(p, t, edits, pos)
    {
      ok, first, edits := false, 0, None;
      var time := MediaDuration(p.segs, t == MediaSegment);
      if time.Err? { return; }
      duration := time.value;
      match t {
        case Normal => ok, first, edits := BuildNormal(pos);
        case InitSegment => ok, edits := BuildInit(pos);
        case MediaSegment => ok, first := BuildMedia(pos);
      }
      if ok {
        ContentLength(body);
      }
    }

    method BuildNormal(pos: nat) returns (ok: bool, first: nat, edits: Option<seq<EditList.Entry>>)
      requires Ok_(body) && Content(body) == [] && ParamsOk(p) && duration == Duration(p)
      modifies this`body
      ensures ok ==>
                && Ok_(body) && body.unflushed == |body.buf| && TypeOk(p, Normal, edits)
                && Content(body) == SerializeAll(FileTrees(p, Normal, edits, pos))
                && first + |DataAll(p.segs, |p.segs|)| == |Content(body)|
    {
      hide Grows, Content, Ok_, Serialize, SerializeAll, MoovTree, ParamsOk, EditList.EditsOk, DataAll, FtypTree;
      first, edits := 0, None;
      ghost var a, trees: seq<Tree> := body, [];
      FileStart(a);
      ok := AppendStatic(0, NORMAL_FTYP);
      if !ok { return; }
      StaticBoxes();
      ghost var s := body;
      FileNext(a, a, s, trees, FtypTree());
      trees := trees + [FtypTree()];
      ok, edits := AppendMoov(false, pos);
      if !ok { return; }
      FileNext(a, s, body, trees, MoovTree(p, edits, false, pos));
      trees := trees + [MoovTree(p, edits, false, pos)];
      s := body;
      ok, first := AppendNormalMdat();
      if !ok { return; }
      ghost var mdat := Large(MDAT, DataAll(p.segs, |p.segs|));
      LargeBytes(MDAT, DataAll(p.segs, |p.segs|));
      FileNext(a, s, body, trees, mdat);
      trees := trees + [mdat];
      assert trees == FileTrees(p, Normal, edits, pos);
      FileEnd(a, body, trees);
      MdatEnds(s, body, mdat);
    }

    method BuildInit(pos: nat) returns (ok: bool, edits: Option<seq<EditList.Entry>>)
      requires Ok_(body) && Content(body) == [] && ParamsOk(p) && duration == Duration(p)
      modifies this`body
      ensures ok ==>
                && Ok_(body) && body.unflushed == |body.buf| && TypeOk(p, InitSegment, edits)
                && Content(body) == SerializeAll(FileTrees(p, InitSegment, edits, pos))
    {
      hide Grows, Content, Ok_, Serialize, SerializeAll, MoovTree, ParamsOk, EditList.EditsOk, InitFtypTree;
      edits := None;
      ghost var a, trees: seq<Tree> := body, [];
      FileStart(a);
      ok := AppendStatic(1, INIT_FTYP);
      if !ok { return; }
      StaticBoxes();
      ghost var s := body;
      FileNext(a, a, s, trees, InitFtypTree());
      trees := trees + [InitFtypTree()];
      ok, edits := AppendMoov(true, pos);
      if !ok { return; }
      FileNext(a, s, body, trees, MoovTree(p, edits, true, pos));
      trees := trees + [MoovTree(p, edits, true, pos)];
      s := body;
      ok := FlushBuf();
      if !ok { return; }
      GrowsOk(s, body, []);
      FileSame(a, s, body, trees);
      assert trees == FileTrees(p, InitSegment, edits, pos);
      FileEnd(a, body, trees);
    }

    /** A media segment may not exceed what 32-bit offsets reach. */
    method BuildMedia(pos: nat) returns (ok: bool, first: nat)
      requires Ok_(body) && Content(body) == [] && ParamsOk(p)
      modifies this`body
      ensures ok ==>
                && Ok_(body) && body.unflushed == |body.buf|
                && Content(body) == SerializeAll(FileTrees(p, MediaSegment, None, pos))
                && first + |DataAll(p.segs, |p.segs|)| == |Content(body)| <= 0xFFFF_FFFF
    {
      hide Grows, Content, Ok_, Serialize, SerializeAll, MoofTree, ParamsOk, DataAll;
      first := 0;
      ghost var a, trees: seq<Tree> := body, [];
      FileStart(a);
      ok := AppendMoof(pos);
      if !ok { return; }
      ghost var s := body;
      FileNext(a, a, s, trees, MoofTree(p, pos));
      trees := trees + [MoofTree(p, pos)];
      ok, first := AppendMediaMdat();
      if !ok || body.len > 0xFFFF_FFFF { return false, first; }
      ghost var mdat := Leaf(MDAT, DataAll(p.segs, |p.segs|));
      LeafBytes(MDAT, DataAll(p.segs, |p.segs|));
      FileNext(a, s, body, trees, mdat);
      trees := trees + [mdat];
      assert trees == FileTrees(p, MediaSegment, None, pos);
      FileEnd(a, body, trees);
      MdatEnds(s, body, mdat);
      ContentLength(body);
    }
  }

  datatype FileType = Normal | InitSegment | MediaSegment

  /** The file as boxes. */
  ghost function FileTrees(p: Params, t: FileType, edits: Option<seq<EditList.Entry>>, pos: nat): seq<Tree>
    requires ParamsOk(p) && (t != MediaSegment ==> p.entries != [])
  {
    match t
    case Normal => [FtypTree(), MoovTree(p, edits, false, pos), Large(MDAT, DataAll(p.segs, |p.segs|))]
    case InitSegment => [InitFtypTree(), MoovTree(p, edits, true, pos)]
    case MediaSegment => [MoofTree(p, pos), Leaf(MDAT, DataAll(p.segs, |p.segs|))]
  }

  /** Files with a movie box have sample entries and the right edit list. */
  ghost predicate TypeOk(p: Params, t: FileType, edits: Option<seq<EditList.Entry>>) {
    t != MediaSegment ==> p.entries != [] && EditList.EditsOk(Parts(p.segs), edits)
  }

  /** The file with its offsets rendered from the position `pos`. */
  ghost function FileBytes(p: Params, t: FileType, edits: Option<seq<EditList.Entry>>, pos: nat): Bytes
    requires ParamsOk(p) && (t != MediaSegment ==> p.entries != [])
  {
    SerializeAll(FileTrees(p, t, edits, pos))
  }

  /** What a successful build, with offsets rendered from `pos`, says of the file: its length fits, a
      media segment is below 4 GiB, and the sample data starts at `first` and ends the file. */
  ghost predicate BuildDone(p: Params, t: FileType, edits: Option<seq<EditList.Entry>>, pos: nat, first: nat) {
    && ParamsOk(p) && TypeOk(p, t, edits)
    && |FileBytes(p, t, edits, pos)| < 0x100_0000_0000
    && (t == MediaSegment ==> edits == None && |FileBytes(p, t, edits, pos)| <= 0xFFFF_FFFF)
    && (t != InitSegment ==> first + |DataAll(p.segs, |p.segs|)| == |FileBytes(p, t, edits, pos)|)
  }

  /** The loop of `build` over the segments' durations. Media segments have no edit list, so they
      count what an edit list would skip. */
  method MediaDuration(segs: seq<Seg>, actual: bool) returns (r: Result<nat>)
    ensures r.Ok? <==> forall i | 0 <= i < |segs| :: (if actual then segs[i].part.actualStart else segs[i].part.start) <= segs[i].part.end
    ensures r.Ok? ==> r.value == if actual then EditList.TrackTime(Parts(segs), |segs|) else EditList.Asked(Parts(segs), |segs|)
  {
    var sum: nat := 0;
    for k := 0 to |segs|
      invariant forall i | 0 <= i < k :: (if actual then segs[i].part.actualStart else segs[i].part.start) <= segs[i].part.end
      invariant sum == if actual then EditList.TrackTime(Parts(segs), k) else EditList.Asked(Parts(segs), k)
    {
      var part := segs[k].part;
      var start := if actual then part.actualStart else part.start;
      if part.end < start {
        return Err;
      }
      sum := sum + (part.end - start);
    }
    return Ok(sum);
  }

  lemma FileStart(a: BodyState)
    requires Ok_(a)
    ensures Grows(a, a, SerializeAll([]))
  {
    SerializeNone();
    GrowsNone(a);
  }

  lemma FileNext(a: BodyState, s: BodyState, t: BodyState, trees: seq<Tree>, tree: Tree)
    requires Grows(a, s, SerializeAll(trees)) && Grows(s, t, Serialize(tree))
    ensures Grows(a, t, SerializeAll(trees + [tree]))
  {
    hide Grows, Serialize, SerializeAll;
    GrowsBoth(a, s, t, SerializeAll(trees), Serialize(tree));
    SerializeMore(trees, tree);
  }

  lemma FileSame(a: BodyState, s: BodyState, t: BodyState, trees: seq<Tree>)
    requires Grows(a, s, SerializeAll(trees)) && Grows(s, t, [])
    ensures Grows(a, t, SerializeAll(trees))
  {
    hide Grows, SerializeAll;
    GrowsBoth(a, s, t, SerializeAll(trees), []);
    assert SerializeAll(trees) + [] == SerializeAll(trees);
  }

  lemma FileEnd(a: BodyState, s: BodyState, trees: seq<Tree>)
    requires Grows(a, s, SerializeAll(trees)) && Content(a) == []
    ensures Ok_(s) && Content(s) == SerializeAll(trees)
  {
    hide SerializeAll;
    assert [] + SerializeAll(trees) == SerializeAll(trees);
  }

  lemma LargeBytes(kind: Kind, body: Bytes)
    ensures Serialize(Large(kind, body)) == BigBox(kind, body)
  {
  }

  /** The sample data ends the file. */
  lemma MdatEnds(s: BodyState, t: BodyState, mdat: Tree)
    requires Grows(s, t, Serialize(mdat)) && !mdat.Node? && |mdat.kind| == 4
    ensures |Content(t)| == |Content(s)| + HeaderSize(mdat) + |mdat.body|
  {
    if mdat.Large? {
      assert |U32(1)| == 4 && |U64((16 + |mdat.body|) % 0x1_0000_0000_0000_0000)| == 8;
    } else {
      BoxedLength(mdat.kind, mdat.body);
    }
  }

  /** Filling in x2 once y has followed it. */
  lemma FillLater(a: BodyState, b: BodyState, c: BodyState, e: BodyState, x1: Bytes, x2: Bytes, y: Bytes, len: Bytes)
    requires Grows(a, b, x1) && Grows(b, c, x2) && Grows(c, e, y)
    requires Spot(c, |b.buf|, |Content(b)|, |x2|) && |len| == |x2|
    ensures |b.buf| + |x2| <= |e.buf| && Ok_(Filled(e, |b.buf|, len)) && Grows(a, Filled(e, |b.buf|, len), x1 + (len + y))
  {
    hide Put, Content;
    FillContent(e, |b.buf|, |Content(b)|, len);
    Join3(Content(b), x2, y);
    PutFirst(Content(b), x2, len, y);
    Join3(Content(a), x1, len + y);
  }

  /** How long the file is before and after the sample data. */
  lemma MdatLengths(a: BodyState, b: BodyState, c: BodyState, d: BodyState, e: BodyState, x1: Bytes, x2: Bytes, data: Bytes)
    requires Grows(a, b, x1) && Grows(b, c, x2) && Grows(c, d, []) && Grows(d, e, data)
    requires d.unflushed == |d.buf| && e.unflushed == |e.buf|
    ensures d.len == |Content(a)| + |x1| + |x2| && e.len == d.len + |data|
  {
    ContentLength(d);
    ContentLength(e);
  }

  lemma NormalMdatBytes(data: Bytes)
    ensures (U32(1) + MDAT) + (U64((16 + |data|) % 0x1_0000_0000_0000_0000) + ([] + data)) == BigBox(MDAT, data)
  {
    hide U32, U64;
    assert [] + data == data;
    Join3(U32(1), MDAT, U64((16 + |data|) % 0x1_0000_0000_0000_0000) + data);
  }

  lemma MediaMdatBytes(data: Bytes)
    ensures [] + (U32((8 + |data|) % 0x1_0000_0000) + (MDAT + [] + data)) == Boxed(MDAT, data)
  {
    hide U32;
    assert MDAT + [] == MDAT;
    var box := U32((8 + |data|) % 0x1_0000_0000) + (MDAT + data);
    assert [] + box == box;
  }

  lemma GrowsOk(s: BodyState, t: BodyState, x: Bytes)
    requires Grows(s, t, x)
    ensures Ok_(t)
  {
  }

  lemma MinfStart()
    ensures VIDEO_MINF_JUNK == MINF + SerializeAll([VmhdTree(), DinfTree()])
  {
    hide Serialize;
    MinfBoxes();
    SerializeNone();
    SerializeMore([], VmhdTree());
    SerializeMore([VmhdTree()], DinfTree());
    assert [] + [VmhdTree()] == [VmhdTree()] && [VmhdTree()] + [DinfTree()] == [VmhdTree(), DinfTree()];
    assert [] + Serialize(VmhdTree()) == Serialize(VmhdTree());
  }

  lemma MoovKids(p: Params, edits: Option<seq<EditList.Entry>>, init: bool, pos: nat, kids: seq<Tree>)
    requires ParamsOk(p) && p.entries != []
    requires kids == [] + [Leaf(MVHD, MvhdBody(p))] + [Node(TRAK, TrakKids(p, edits, init, pos))]
                     + if init then [Node(MVEX, [Leaf(TREX, TrexBody())])] else []
    ensures Node(MOOV, kids) == MoovTree(p, edits, init, pos)
  {
    hide TrakKids, MvhdBody, TrexBody, ParamsOk;
  }

  lemma SmallCounts(p: Params)
    requires ParamsOk(p)
    ensures |p.segs| < 0x1_0000_0000 && |p.entries| < 0x1_0000_0000
  {
  }

  lemma EntriesOk(p: Params)
    requires ParamsOk(p)
    ensures p.creation < 0x1_0000_0000 && forall j | 0 <= j < |p.entries| :: p.entries[j].width < 0x1_0000 && p.entries[j].height < 0x1_0000
  {
  }

  lemma SegReady(p: Params, i: nat)
    requires ParamsOk(p) && i < |p.segs|
    ensures var s := p.segs[i];
            s.frames != [] && |s.frames| < 0x1_0000 && Tabled(s.frames, 0) && s.frames[|s.frames| - 1].start <= s.part.end
  {
    assert SegOk(p.segs[i]);
  }

  lemma TrunsNone(p: Params, pos: nat)
    requires ParamsOk(p)
    ensures TrunsAll(p, 0, pos) == [] && AllRuns(TrunsAll(p, 0, pos)) == []
  {
  }

  lemma TrunsNext(p: Params, i: nat, pos: nat)
    requires ParamsOk(p) && i < |p.segs|
    ensures AllRuns(TrunsAll(p, i + 1, pos)) == AllRuns(TrunsAll(p, i, pos)) + AllRuns(SegRuns(p, i, pos))
  {
    hide AllRuns, SegRuns, ParamsOk;
    AllRunsBoth(TrunsAll(p, i, pos), SegRuns(p, i, pos));
  }

  lemma {:induction false} SerializeBoth(a: seq<Tree>, b: seq<Tree>)
    ensures SerializeAll(a + b) == SerializeAll(a) + SerializeAll(b)
    decreases |b|
  {
    hide Serialize;
    if b == [] {
      SerializeNone();
      assert a + b == a;
    } else {
      var front, last := b[..|b| - 1], b[|b| - 1];
      SerializeBoth(a, front);
      SerializeMore(a + front, last);
      SerializeMore(front, last);
      assert a + b == (a + front) + [last] && b == front + [last];
      Join3(SerializeAll(a), SerializeAll(front), Serialize(last));
    }
  }

  lemma InBoxOk(a: BodyState, s: BodyState, kind: Kind, body: Bytes)
    requires InBox(a, s, kind, body)
    ensures Ok_(s)
  {
  }

  lemma SegNotEmpty(p: Params, i: nat)
    requires ParamsOk(p) && i < |p.segs|
    ensures p.segs[i].frames != []
  {
    assert SegOk(p.segs[i]);
  }

  /** The fold over sample entries in `append_video_tkhd`. */
  method Largest(entries: seq<VideoEntry>) returns (r: (nat, nat))
    requires entries != [] && forall j | 0 <= j < |entries| :: entries[j].width < 0x1_0000 && entries[j].height < 0x1_0000
    ensures r == MaxSize(entries, |entries|)
  {
    r := (entries[0].width, entries[0].height);
    for i := 1 to |entries|
      invariant r == MaxSize(entries, i)
    {
      r := (Max(r.0, entries[i].width), Max(r.1, entries[i].height));
    }
  }

  lemma NodeBytes(kind: Kind, kids: seq<Tree>)
    ensures Serialize(Node(kind, kids)) == Boxed(kind, SerializeAll(kids))
  {
  }

  /** A complete box is a child of the open box around it. */
  lemma NextKid(a: BodyState, s: BodyState, t: BodyState, kind: Kind, kids: seq<Tree>, kid: Tree)
    requires InBox(a, s, kind, SerializeAll(kids)) && Grows(s, t, Serialize(kid))
    ensures InBox(a, t, kind, SerializeAll(kids + [kid]))
  {
    hide InBox, Grows, Serialize;
    BoxMore(a, s, t, kind, SerializeAll(kids), Serialize(kid));
    SerializeMore(kids, kid);
  }

  lemma FirstKid(a: BodyState, s: BodyState, t: BodyState, kind: Kind, kid: Tree)
    requires InBox(a, s, kind, []) && Grows(s, t, Serialize(kid))
    ensures InBox(a, t, kind, SerializeAll([kid]))
  {
    hide InBox, Grows, Serialize;
    SerializeNone();
    NextKid(a, s, t, kind, [], kid);
    assert [] + [kid] == [kid];
  }
}
