/** Boxes as ISO/IEC 14496-12 section 4.2 lays them out: a 32-bit length, a four-byte type, then
    fields or further boxes; length 1 means a 64-bit length follows the type. */
module BoxTree {
  import opened Base
  import opened BigEndian

  type Kind = Bytes

  datatype Tree = Leaf(kind: Kind, body: Bytes) | Node(kind: Kind, kids: seq<Tree>) | Large(kind: Kind, body: Bytes)

  const MOOV: Kind := [0x6d, 0x6f, 0x6f, 0x76]
  const TRAK: Kind := [0x74, 0x72, 0x61, 0x6b]
  const EDTS: Kind := [0x65, 0x64, 0x74, 0x73]
  const MDIA: Kind := [0x6d, 0x64, 0x69, 0x61]
  const MINF: Kind := [0x6d, 0x69, 0x6e, 0x66]
  const DINF: Kind := [0x64, 0x69, 0x6e, 0x66]
  const STBL: Kind := [0x73, 0x74, 0x62, 0x6c]
  const MVEX: Kind := [0x6d, 0x76, 0x65, 0x78]
  const MOOF: Kind := [0x6d, 0x6f, 0x6f, 0x66]
  const TRAF: Kind := [0x74, 0x72, 0x61, 0x66]

  /** The types whose contents are just boxes. */
  predicate Container(kind: Kind) {
    kind in {MOOV, TRAK, EDTS, MDIA, MINF, DINF, STBL, MVEX, MOOF, TRAF}
  }

  /** A box around its contents; the length field has 32 bits. */
  function Boxed(kind: Kind, contents: Bytes): Bytes {
    U32((4 + |kind| + |contents|) % 0x1_0000_0000) + (kind + contents)
  }

  /** A box with a 64-bit length. */
  function BigBox(kind: Kind, body: Bytes): Bytes {
    U32(1) + (kind + (U64((16 + |body|) % 0x1_0000_0000_0000_0000) + body))
  }

  function Serialize(t: Tree): Bytes {
    match t
    case Leaf(kind, body) => Boxed(kind, body)
    case Node(kind, kids) => Boxed(kind, SerializeAll(kids))
    case Large(kind, body) => BigBox(kind, body)
  }

  function SerializeAll(ts: seq<Tree>): Bytes {
    if ts == [] then [] else Serialize(ts[0]) + SerializeAll(ts[1..])
  }

  /** Trees the format can hold: four-byte types, containers exactly where they belong, and lengths
      that fit their fields. */
  ghost predicate Fits(t: Tree) {
    && |t.kind| == 4
    && (t.Large? || |Serialize(t)| < 0x1_0000_0000)
    && (if t.Node? then Container(t.kind) && FitAll(t.kids) else !Container(t.kind))
    && (t.Large? ==> |t.body| + 16 < 0x1_0000_0000_0000_0000)
  }

  ghost predicate FitAll(ts: seq<Tree>) {
    forall i | 0 <= i < |ts| :: Fits(ts[i])
  }

  // -- reading boxes -----------------------------------------------------------------------

  /** The header at i in data that ends at `end`: the type, where the contents start and where the
      box ends. */
  function Header(data: Bytes, i: nat, end: nat): (r: Option<(Kind, nat, nat)>)
    requires i <= end <= |data|
    ensures r.Some? ==> i < r.value.1 <= r.value.2 <= end
  {
    if end - i < 8 then None
    else
      var len, kind := Read32(data, i), data[i + 4..i + 8];
      if len == 1 then
        if end - i < 16 then None
        else
          var large := Read64(data, i + 8);
          if 16 <= large <= end - i then Some((kind, i + 16, i + large)) else None
      else if 8 <= len <= end - i then Some((kind, i + 8, i + len))
      else None
  }

  /** The boxes that fill data from i to `end` exactly. */
  function Parse(data: Bytes, i: nat, end: nat): Option<seq<Tree>>
    requires i <= end <= |data|
    decreases end - i
  {
    if i == end then Some([])
    else
      match Header(data, i, end)
      case None => None
      case Some((kind, start, stop)) =>
        var box :=
          if !Container(kind) then
            Some(if start == i + 16 then Large(kind, data[start..stop]) else Leaf(kind, data[start..stop]))
          else
            match Parse(data, start, stop)
            case None => None
            case Some(kids) => Some(Node(kind, kids));
        match box
        case None => None
        case Some(t) =>
          match Parse(data, stop, end)
          case None => None
          case Some(ts) => Some([t] + ts)
  }

  lemma BoxedAt(data: Bytes, i: nat, kind: Kind, contents: Bytes)
    requires |kind| == 4 && 8 + |contents| < 0x1_0000_0000 && At(data, i, Boxed(kind, contents))
    ensures |Boxed(kind, contents)| == 8 + |contents| && i + 8 + |contents| <= |data|
    ensures Read32(data, i) == 8 + |contents| && data[i + 4..i + 8] == kind && At(data, i + 8, contents)
  {
    hide U32, Read32;
    var n := 8 + |contents|;
    AtSplit(data, i, U32(n), kind + contents);
    AtSplit(data, i + 4, kind, contents);
    Back32(data, i, n);
  }

  lemma BigBoxAt(data: Bytes, i: nat, kind: Kind, body: Bytes)
    requires |kind| == 4 && 16 + |body| < 0x1_0000_0000_0000_0000 && At(data, i, BigBox(kind, body))
    ensures |BigBox(kind, body)| == 16 + |body| && i + 16 + |body| <= |data|
    ensures Read32(data, i) == 1 && data[i + 4..i + 8] == kind && Read64(data, i + 8) == 16 + |body|
    ensures At(data, i + 16, body)
  {
    hide U32, Read32, U64, Read64;
    var len := U64(16 + |body|);
    AtSplit(data, i, U32(1), kind + (len + body));
    AtSplit(data, i + 4, kind, len + body);
    AtSplit(data, i + 8, len, body);
    Back32(data, i, 1);
    Back64(data, i + 8, 16 + |body|);
  }

  function Contents(t: Tree): Bytes {
    match t
    case Leaf(_, body) => body
    case Node(_, kids) => SerializeAll(kids)
    case Large(_, body) => body
  }

  function HeaderSize(t: Tree): nat {
    if t.Large? then 16 else 8
  }

  lemma TreeAt(data: Bytes, i: nat, end: nat, t: Tree)
    requires Fits(t) && At(data, i, Serialize(t)) && i + |Serialize(t)| <= end <= |data|
    ensures |Serialize(t)| == HeaderSize(t) + |Contents(t)|
    ensures Header(data, i, end) == Some((t.kind, i + HeaderSize(t), i + |Serialize(t)|))
    ensures At(data, i + HeaderSize(t), Contents(t))
  {
    hide U32, Read32, U64, Read64, SerializeAll, Boxed, BigBox;
    if t.Large? {
      BigBoxAt(data, i, t.kind, t.body);
    } else {
      FittingLength(t);
      BoxedAt(data, i, t.kind, Contents(t));
    }
  }

  lemma BoxedLength(kind: Kind, contents: Bytes)
    ensures |Boxed(kind, contents)| == 4 + |kind| + |contents|
  {
    assert |U32((4 + |kind| + |contents|) % 0x1_0000_0000)| == 4;
  }

  lemma FittingLength(t: Tree)
    requires Fits(t) && !t.Large?
    ensures 8 + |Contents(t)| < 0x1_0000_0000
  {
    BoxedLength(t.kind, Contents(t));
    assert t.Leaf? || t.Node?;
  }

  /** The byte form of fitting trees parses back to them: every length is exact and every box fills
      its place. */
  lemma {:induction false} ParseBack(data: Bytes, i: nat, ts: seq<Tree>)
    requires FitAll(ts) && At(data, i, SerializeAll(ts))
    ensures Parse(data, i, i + |SerializeAll(ts)|) == Some(ts)
    decreases ts
  {
    hide Serialize, Header, Contents, Fits, At;
    AtBound(data, i, SerializeAll(ts));
    if ts != [] {
      var t, rest := ts[0], ts[1..];
      AtSplit(data, i, Serialize(t), SerializeAll(rest));
      ParseBack(data, i + |Serialize(t)|, rest);
      TreeAt(data, i, i + |SerializeAll(ts)|, t);
      AtBound(data, i + HeaderSize(t), Contents(t));
      NodeContents(t);
      FitsAsItIs(t);
      if t.Node? {
        ParseBack(data, i + 8, t.kids);
      }
      assert [t] + rest == ts;
    }
  }

  lemma FitsAsItIs(t: Tree)
    requires Fits(t)
    ensures t.Node? <==> Container(t.kind)
    ensures t.Node? ==> FitAll(t.kids)
  {
  }

  lemma NodeContents(t: Tree)
    ensures t.Node? ==> Contents(t) == SerializeAll(t.kids)
    ensures !t.Node? ==> Contents(t) == t.body
  {
  }
}
