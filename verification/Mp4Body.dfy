/** The body of a virtual .mp4 while it is built (server/src/mp4.rs:660-740, 871-891 and 1764-1833): a
    buffer of bytes written so far and slices that refer to it or to bytes made later. Slices keep
    positions in the buffer, so a length can still be filled in after its slice was appended. */
module Mp4Body {
  import opened Base
  import opened BigEndian
  import opened BoxTree
  import Slices

  // -- the packed form of a slice ----------------------------------------------------------

  /** `Slice::new`: 40 bits of end, 4 of type, 20 of parameter. */
  function Pack(end: nat, t: nat, p: nat): (r: Option<nat>)
    requires t < 16
    ensures r.Some? <==> end < 0x100_0000_0000 && p < 0x10_0000
    ensures r.Some? ==> r.value < 0x1_0000_0000_0000_0000
  {
    if end >= 0x100_0000_0000 || p >= 0x10_0000 then None
    else Some(end + t * 0x100_0000_0000 + p * 0x1000_0000_0000)
  }

  /** The packed fields come back. */
  lemma Unpack(end: nat, t: nat, p: nat)
    requires t < 16 && end < 0x100_0000_0000 && p < 0x10_0000
    ensures var w := Pack(end, t, p).value;
            w % 0x100_0000_0000 == end && w / 0x100_0000_0000 % 16 == t && w / 0x1000_0000_0000 == p
  {
    var w := Pack(end, t, p).value;
    assert w == end + (t + p * 16) * 0x100_0000_0000;
    assert w / 0x100_0000_0000 == t + p * 16;
    assert w / 0x1000_0000_0000 == (t + p * 16) / 16;
  }

  // -- states ------------------------------------------------------------------------------

  /** A slice: part of the buffer, or bytes from elsewhere (a static string, an index, sample data)
      found through parameter `p`. */
  datatype Piece = Buf(pos: nat, len: nat) | Given(p: nat, bytes: Bytes)

  datatype BodyState = BodyState(pieces: seq<Piece>, len: nat, buf: Bytes, unflushed: nat)

  function PieceLen(p: Piece): nat {
    match p case Buf(_, len) => len case Given(_, bytes) => |bytes|
  }

  ghost function TotalLen(ps: seq<Piece>): nat {
    if ps == [] then 0 else TotalLen(ps[..|ps| - 1]) + PieceLen(ps[|ps| - 1])
  }

  /** The buffer slices cover the buffer up to `u`, in order. */
  ghost predicate Covers(ps: seq<Piece>, u: nat) {
    if ps == [] then u == 0
    else
      match ps[|ps| - 1]
      case Buf(pos, len) => len > 0 && pos + len == u && Covers(ps[..|ps| - 1], pos)
      case Given(_, bytes) => bytes != [] && Covers(ps[..|ps| - 1], u)
  }

  ghost predicate Ok_(s: BodyState) {
    && Covers(s.pieces, s.unflushed) && s.unflushed <= |s.buf|
    && s.len == TotalLen(s.pieces) && s.len < 0x100_0000_0000
  }

  /** What the slices render once the buffer is complete. */
  ghost function Render(ps: seq<Piece>, u: nat, buf: Bytes): Bytes
    requires Covers(ps, u) && u <= |buf|
  {
    if ps == [] then []
    else
      match ps[|ps| - 1]
      case Buf(pos, len) => Render(ps[..|ps| - 1], pos, buf) + buf[pos..pos + len]
      case Given(_, bytes) => Render(ps[..|ps| - 1], u, buf) + bytes
  }

  /** The bytes of the file so far. */
  ghost function Content(s: BodyState): Bytes
    requires Ok_(s)
  {
    Render(s.pieces, s.unflushed, s.buf) + s.buf[s.unflushed..]
  }

  lemma {:induction false} RenderLength(ps: seq<Piece>, u: nat, buf: Bytes)
    requires Covers(ps, u) && u <= |buf|
    ensures |Render(ps, u, buf)| == TotalLen(ps)
  {
    if ps != [] {
      var front := ps[..|ps| - 1];
      match ps[|ps| - 1] {
        case Buf(pos, len) => RenderLength(front, pos, buf);
        case Given(_, bytes) => RenderLength(front, u, buf);
      }
    }
  }

  // -- places that can be filled in later --------------------------------------------------

  /** The n bytes at position p of the buffer are at position w of the file, in one piece. */
  ghost predicate SpotIn(ps: seq<Piece>, u: nat, p: nat, w: nat, n: nat)
    requires Covers(ps, u)
  {
    ps != [] &&
    match ps[|ps| - 1]
    case Buf(pos, len) =>
      if pos <= p then p + n <= u && w == TotalLen(ps[..|ps| - 1]) + (p - pos) else SpotIn(ps[..|ps| - 1], pos, p, w, n)
    case Given(_, bytes) => SpotIn(ps[..|ps| - 1], u, p, w, n)
  }

  ghost predicate Spot(s: BodyState, p: nat, w: nat, n: nat)
    requires Ok_(s)
  {
    && 0 < n && p + n <= |s.buf|
    && if s.unflushed <= p then w == s.len + (p - s.unflushed) else SpotIn(s.pieces, s.unflushed, p, w, n)
  }

  ghost predicate KeepsSpots(a: BodyState, b: BodyState)
    requires Ok_(a) && Ok_(b)
  {
    forall p, w, n :: Spot(a, p, w, n) ==> Spot(b, p, w, n)
  }

  /** b is a with x appended to the file, and everything that could be filled in still can. */
  ghost predicate Grows(a: BodyState, b: BodyState, x: Bytes) {
    Ok_(a) && Ok_(b) && Content(b) == Content(a) + x && KeepsSpots(a, b)
  }

  lemma {:induction false} RenderSame(ps: seq<Piece>, u: nat, buf: Bytes, buf2: Bytes)
    requires Covers(ps, u) && u <= |buf| && u <= |buf2| && buf[..u] == buf2[..u]
    ensures Render(ps, u, buf) == Render(ps, u, buf2)
  {
    if ps != [] {
      var front := ps[..|ps| - 1];
      match ps[|ps| - 1] {
        case Buf(pos, len) =>
          assert buf[..pos] == buf[..u][..pos] && buf2[..pos] == buf2[..u][..pos];
          assert buf[pos..pos + len] == buf[..u][pos..] && buf2[pos..pos + len] == buf2[..u][pos..];
          RenderSame(front, pos, buf, buf2);
        case Given(_, bytes) =>
          RenderSame(front, u, buf, buf2);
      }
    }
  }

  lemma PutPrefix(a: Bytes, b: Bytes, i: nat, x: Bytes)
    requires i + |x| <= |a|
    ensures Put(a + b, i, x) == Put(a, i, x) + b
  {
  }

  lemma PutSuffix(a: Bytes, b: Bytes, i: nat, x: Bytes)
    requires i + |x| <= |b|
    ensures Put(a + b, |a| + i, x) == a + Put(b, i, x)
  {
  }

  lemma PutSlice(buf: Bytes, i: nat, x: Bytes, pos: nat, end: nat)
    requires pos <= i && i + |x| <= end <= |buf|
    ensures Put(buf, i, x)[pos..end] == Put(buf[pos..end], i - pos, x)
  {
  }

  lemma PutBefore(buf: Bytes, i: nat, x: Bytes, pos: nat, end: nat)
    requires i + |x| <= |buf| && pos <= end <= |buf| && (i + |x| <= pos || end <= i)
    ensures Put(buf, i, x)[pos..end] == buf[pos..end]
  {
  }

  /** Filling in a flushed place changes the rendering exactly there. */
  lemma {:induction false} RenderPut(ps: seq<Piece>, u: nat, buf: Bytes, p: nat, w: nat, x: Bytes)
    requires Covers(ps, u) && u <= |buf| && p < u && SpotIn(ps, u, p, w, |x|)
    ensures p + |x| <= u && w + |x| <= |Render(ps, u, buf)|
    ensures Render(ps, u, Put(buf, p, x)) == Put(Render(ps, u, buf), w, x)
  {
    hide Put;
    var front := ps[..|ps| - 1];
    match ps[|ps| - 1] {
      case Buf(pos, len) =>
        RenderLength(front, pos, buf);
        if pos <= p {
          PutBefore(buf, p, x, 0, pos);
          assert buf[0..pos] == buf[..pos] && Put(buf, p, x)[0..pos] == Put(buf, p, x)[..pos];
          RenderSame(front, pos, buf, Put(buf, p, x));
          PutSlice(buf, p, x, pos, u);
          PutSuffix(Render(front, pos, buf), buf[pos..u], p - pos, x);
        } else {
          RenderPut(front, pos, buf, p, w, x);
          PutBefore(buf, p, x, pos, u);
          PutPrefix(Render(front, pos, buf), buf[pos..u], w, x);
        }
      case Given(_, bytes) =>
        RenderPut(front, u, buf, p, w, x);
        PutPrefix(Render(front, u, buf), bytes, w, x);
    }
  }

  ghost function Filled(s: BodyState, p: nat, x: Bytes): BodyState
    requires p + |x| <= |s.buf|
  {
    s.(buf := Put(s.buf, p, x))
  }

  /** Filling in a place changes the file exactly there. */
  lemma FillContent(s: BodyState, p: nat, w: nat, x: Bytes)
    requires Ok_(s) && Spot(s, p, w, |x|)
    ensures Ok_(Filled(s, p, x)) && w + |x| <= |Content(s)| && Content(Filled(s, p, x)) == Put(Content(s), w, x)
    ensures KeepsSpots(s, Filled(s, p, x))
  {
    hide Put;
    var u, buf := s.unflushed, s.buf;
    RenderLength(s.pieces, u, buf);
    if u <= p {
      PutBefore(buf, p, x, 0, u);
      assert buf[0..u] == buf[..u] && Put(buf, p, x)[0..u] == Put(buf, p, x)[..u];
      RenderSame(s.pieces, u, buf, Put(buf, p, x));
      PutSlice(buf, p, x, u, |buf|);
      assert buf[u..|buf|] == buf[u..] && Put(buf, p, x)[u..|buf|] == Put(buf, p, x)[u..];
      PutSuffix(Render(s.pieces, u, buf), buf[u..], p - u, x);
    } else {
      RenderPut(s.pieces, u, buf, p, w, x);
      PutBefore(buf, p, x, u, |buf|);
      assert buf[u..|buf|] == buf[u..] && Put(buf, p, x)[u..|buf|] == Put(buf, p, x)[u..];
      PutPrefix(Render(s.pieces, u, buf), buf[u..], w, x);
    }
  }

  // -- appending ---------------------------------------------------------------------------

  lemma Extended(s: BodyState, x: Bytes)
    requires Ok_(s)
    ensures Grows(s, s.(buf := s.buf + x), x)
    ensures |Content(s)| == s.len + (|s.buf| - s.unflushed)
    ensures x != [] ==> Spot(s.(buf := s.buf + x), |s.buf|, |Content(s)|, |x|)
  {
    var t := s.(buf := s.buf + x);
    RenderLength(s.pieces, s.unflushed, s.buf);
    RenderSame(s.pieces, s.unflushed, s.buf, t.buf);
    assert t.buf[s.unflushed..] == s.buf[s.unflushed..] + x;
  }

  lemma AddPiece(ps: seq<Piece>, p: Piece)
    ensures (ps + [p])[..|ps|] == ps && (ps + [p])[|ps|] == p
    ensures TotalLen(ps + [p]) == TotalLen(ps) + PieceLen(p)
  {
    assert (ps + [p])[..|ps|] == ps;
  }

  ghost function Flushed(s: BodyState): BodyState
    requires s.unflushed < |s.buf|
  {
    BodyState(s.pieces + [Buf(s.unflushed, |s.buf| - s.unflushed)], s.len + (|s.buf| - s.unflushed), s.buf, |s.buf|)
  }

  /** A flush changes nothing in the file. */
  lemma FlushGrows(s: BodyState)
    requires Ok_(s) && s.unflushed < |s.buf| && s.len + (|s.buf| - s.unflushed) < 0x100_0000_0000
    ensures Grows(s, Flushed(s), [])
  {
    var t := Flushed(s);
    AddPiece(s.pieces, Buf(s.unflushed, |s.buf| - s.unflushed));
    assert s.buf[s.unflushed..|s.buf|] == s.buf[s.unflushed..] && t.buf[|s.buf|..] == [];
    RenderSame(s.pieces, s.unflushed, s.buf, t.buf);
    assert Content(t) == Content(s);
    forall p: nat, w: nat, n: nat | Spot(s, p, w, n) ensures Spot(t, p, w, n) {
      assert p < s.unflushed ==> SpotIn(s.pieces, s.unflushed, p, w, n);
    }
  }

  ghost function Sliced(s: BodyState, p: nat, x: Bytes): BodyState {
    s.(pieces := s.pieces + [Given(p, x)], len := s.len + |x|)
  }

  lemma SliceGrows(s: BodyState, p: nat, x: Bytes)
    requires Ok_(s) && s.unflushed == |s.buf| && x != [] && s.len + |x| < 0x100_0000_0000
    ensures Grows(s, Sliced(s, p, x), x)
  {
    var t := Sliced(s, p, x);
    AddPiece(s.pieces, Given(p, x));
    assert s.buf[|s.buf|..] == [];
    assert Content(s) == Render(s.pieces, s.unflushed, s.buf);
    assert Content(t) == Render(s.pieces, s.unflushed, s.buf) + x;
    forall q: nat, w: nat, n: nat | Spot(s, q, w, n) ensures Spot(t, q, w, n) {
      assert q < s.unflushed && SpotIn(s.pieces, s.unflushed, q, w, n);
    }
  }

  // -- serving -----------------------------------------------------------------------------

  /** The slices as a reader of byte ranges sees them. */
  ghost function Rendered(ps: seq<Piece>, u: nat, buf: Bytes): seq<Slices.Slice>
    requires Covers(ps, u) && u <= |buf|
  {
    if ps == [] then []
    else
      var n := TotalLen(ps);
      match ps[|ps| - 1]
      case Buf(pos, len) => Rendered(ps[..|ps| - 1], pos, buf) + [Slices.Slice(n, buf[pos..pos + len])]
      case Given(_, bytes) => Rendered(ps[..|ps| - 1], u, buf) + [Slices.Slice(n, bytes)]
  }

  lemma AddSlice(slices: seq<Slices.Slice>, s: Slices.Slice)
    requires Slices.Ordered(slices)
    requires s.end == Slices.StartOf(slices, |slices|) + |s.body| && s.body != []
    ensures Slices.Ordered(slices + [s]) && Slices.StartOf(slices + [s], |slices| + 1) == s.end
    ensures Slices.Whole(slices + [s], |slices| + 1) == Slices.Whole(slices, |slices|) + s.body
  {
    var all := slices + [s];
    forall i | 0 <= i < |all| ensures Slices.Fits(all, i) {
      if i < |slices| {
        assert Slices.Fits(slices, i);
      }
    }
    Slices.WholeSame(slices, all, |slices|);
  }

  /** The slices of a body are valid slices that hold exactly its file. */
  lemma {:induction false} RenderedWhole(ps: seq<Piece>, u: nat, buf: Bytes)
    requires Covers(ps, u) && u <= |buf|
    ensures var slices := Rendered(ps, u, buf);
            && |slices| == |ps| && Slices.Ordered(slices) && Slices.StartOf(slices, |slices|) == TotalLen(ps)
            && Slices.Whole(slices, |slices|) == Render(ps, u, buf)
  {
    hide Slices.Ordered, Slices.Whole;
    if ps == [] {
      RenderedNone();
    } else {
      var front := ps[..|ps| - 1];
      match ps[|ps| - 1] {
        case Buf(pos, len) =>
          RenderedWhole(front, pos, buf);
          AddSlice(Rendered(front, pos, buf), Slices.Slice(TotalLen(ps), buf[pos..pos + len]));
        case Given(_, bytes) =>
          RenderedWhole(front, u, buf);
          AddSlice(Rendered(front, u, buf), Slices.Slice(TotalLen(ps), bytes));
      }
    }
  }

  lemma RenderedNone()
    ensures Slices.Ordered([]) && Slices.Whole([], 0) == []
  {
  }
}
