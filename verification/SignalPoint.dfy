/** A point of the signal store: the whole previous state and a delta, both as varint bytes
    (server/db/signal.rs, `Point`, `append_serialized`, `PointDataIterator`). */
module SignalPoint {
  import opened Base
  import opened Coding
  import opened IntSets

  /** Ids and states are `u32` and `u16`; a `SigMap` is a `BTreeMap<u32, u16>`. */
  newtype SignalId = x: int | 0 <= x < 0x1_0000_0000
  newtype StateNo = x: int | 0 <= x < 0x1_0000

  type SigMap = map<SignalId, StateNo>

  /** One `(signal, state)` pair of an iteration in key order. */
  datatype Entry = Entry(signal: SignalId, state: StateNo)

  // -- iteration in key order --------------------------------------------------------------

  ghost predicate Ascending(es: seq<Entry>, from: int) {
    es != [] ==> from <= es[0].signal as int && Ascending(es[1..], es[0].signal as int + 1)
  }

  /** Inserting the pairs in order. */
  function ToMap(es: seq<Entry>): SigMap {
    if es == [] then map[] else map[es[0].signal := es[0].state] + ToMap(es[1..])
  }

  function LowestKey(m: SigMap): (k: SignalId)
    requires m != map[]
    ensures k in m && forall s | s in m :: k <= s
  {
    var ids := set s | s in m :: s as int;
    var s0 :| s0 in m;
    assert s0 as int in ids;
    assert forall s | s in m :: s as int in ids;
    MinOf(ids) as SignalId
  }

  /** The pairs of a map in ascending key order, as a `BTreeMap` yields them. */
  function Entries(m: SigMap): (es: seq<Entry>)
    ensures ToMap(es) == m
    decreases |m.Keys|
  {
    if m == map[] then []
    else
      var k := LowestKey(m);
      assert m.Keys == (m - {k}).Keys + {k};
      assert map[k := m[k]] + (m - {k}) == m;
      [Entry(k, m[k])] + Entries(m - {k})
  }

  lemma {:induction false} EntriesAscending(m: SigMap, from: int)
    requires forall s | s in m :: from <= s as int
    ensures Ascending(Entries(m), from)
    decreases |m.Keys|
  {
    if m != map[] {
      var k := LowestKey(m);
      assert m.Keys == (m - {k}).Keys + {k};
      EntriesAscending(m - {k}, k as int + 1);
      assert Entries(m)[1..] == Entries(m - {k});
    }
  }

  // -- the byte form -----------------------------------------------------------------------

  /** Each pair is the distance from the lowest signal still allowed, then the state. */
  function SerializeFrom(es: seq<Entry>, next: nat): Bytes
    requires Ascending(es, next)
  {
    if es == [] then []
    else Pair(es[0], next) + SerializeFrom(es[1..], es[0].signal as int + 1)
  }

  /** `append_serialized`. */
  method AppendSerialized(es: seq<Entry>, to: Bytes) returns (r: Bytes)
    requires Ascending(es, 0)
    ensures r == to + SerializeFrom(es, 0)
  {
    var next: nat := 0;
    r := to;
    for i := 0 to |es|
      invariant Ascending(es[i..], next)
      invariant r + SerializeFrom(es[i..], next) == to + SerializeFrom(es, 0)
    {
      assert es[i..][0] == es[i] && es[i..][1..] == es[i + 1..];
      ghost var before, pair := r, Pair(es[i], next);
      r := AppendPair(es[i], next, r);
      next := es[i].signal as int + 1;
      ghost var tail := SerializeFrom(es[i + 1..], next);
      assert before + (pair + tail) == r + tail;
    }
  }

  /** The pair at byte `pos` when the next signal allowed is `cur`, and where it ends. The
      source's errors (two bad varints, signal overflow, state overflow) are `None`. */
  function ParseOne(data: Bytes, pos: nat, cur: nat): (r: Option<(Entry, nat)>)
    requires pos <= |data|
    ensures r.Some? ==> pos < r.value.1 <= |data| && cur <= r.value.0.signal as int
  {
    match Decode(data, pos)
    case None => None
    case Some((delta, p)) =>
      match Decode(data, p)
      case None => None
      case Some((state, e)) =>
        if cur + delta >= 0x1_0000_0000 || state > 0xFFFF then None
        else Some((Entry((cur + delta) as SignalId, state as StateNo), e))
  }

  /** What `PointDataIterator` yields from byte `pos` on. */
  function ParseFrom(data: Bytes, pos: nat, cur: nat): Result<seq<Entry>>
    requires pos <= |data|
    decreases |data| - pos
  {
    if pos == |data| then Ok([])
    else
      match ParseOne(data, pos, cur)
      case None => Err
      case Some((e, end)) =>
        match ParseFrom(data, end, e.signal as int + 1)
        case Err => Err
        case Ok(rest) => Ok([e] + rest)
  }

  function Pair(e: Entry, next: nat): Bytes
    requires next <= e.signal as int
  {
    Varint(e.signal as int - next) + Varint(e.state as int)
  }

  lemma ParsePair(data: Bytes, pos: nat, next: nat, e: Entry)
    requires next <= e.signal as int
    requires At(data, pos, Pair(e, next))
    ensures ParseOne(data, pos, next) == Some((e, pos + |Pair(e, next)|))
  {
    var delta, state := e.signal as int - next, e.state as int;
    AtSplit(data, pos, Varint(delta), Varint(state));
    VarintRoundTrip(data, pos, delta);
    VarintRoundTrip(data, pos + |Varint(delta)|, state);
  }

  lemma ParseStep(data: Bytes, pos: nat, next: nat, es: seq<Entry>)
    requires pos < |data| && es != [] && ParseOne(data, pos, next).Some?
    requires ParseOne(data, pos, next).value.0 == es[0]
    requires ParseFrom(data, ParseOne(data, pos, next).value.1, es[0].signal as int + 1) == Ok(es[1..])
    ensures ParseFrom(data, pos, next) == Ok(es)
  {
    assert [es[0]] + es[1..] == es;
  }

  /** The serialized pairs are all that is left from `pos` on. */
  ghost predicate Serialized(data: Bytes, pos: nat, es: seq<Entry>, next: nat) {
    && Ascending(es, next) && At(data, pos, SerializeFrom(es, next))
    && pos + |SerializeFrom(es, next)| == |data|
  }

  lemma SerializedNone(data: Bytes, pos: nat, next: nat)
    requires Serialized(data, pos, [], next)
    ensures pos <= |data| && ParseFrom(data, pos, next) == Ok([])
  {
  }

  lemma SerializedFirst(data: Bytes, pos: nat, es: seq<Entry>, next: nat) returns (end: nat)
    requires es != [] && Serialized(data, pos, es, next)
    ensures pos < end <= |data| && ParseOne(data, pos, next) == Some((es[0], end))
    ensures Serialized(data, end, es[1..], es[0].signal as int + 1)
  {
    hide Pair, ParseOne;
    AtSplit(data, pos, Pair(es[0], next), SerializeFrom(es[1..], es[0].signal as int + 1));
    ParsePair(data, pos, next, es[0]);
    end := pos + |Pair(es[0], next)|;
  }

  lemma {:induction false} ParseAll(data: Bytes, pos: nat, es: seq<Entry>, next: nat)
    requires Serialized(data, pos, es, next)
    ensures pos <= |data| && ParseFrom(data, pos, next) == Ok(es)
    decreases |es|
  {
    hide Serialized, ParseFrom, ParseOne;
    if es == [] {
      SerializedNone(data, pos, next);
    } else {
      var end := SerializedFirst(data, pos, es, next);
      ParseAll(data, end, es[1..], es[0].signal as int + 1);
      ParseStep(data, pos, next, es);
    }
  }

  lemma ParseSerialized(data: Bytes, pos: nat, es: seq<Entry>, next: nat)
    requires Ascending(es, next) && At(data, pos, SerializeFrom(es, next))
    requires pos + |SerializeFrom(es, next)| == |data|
    ensures ParseFrom(data, pos, next) == Ok(es)
  {
    ParseAll(data, pos, es, next);
  }

  /** The example of the database schema: signals 1, 3 and 200 with states 1, 1 and 2. */
  lemma SerializedExample()
    ensures var es := [Entry(1, 1), Entry(3, 1), Entry(200, 2)];
            Ascending(es, 0) && SerializeFrom(es, 0) == [0x01, 0x01, 0x01, 0x01, 0xc4, 0x01, 0x02]
  {
    var c: seq<Entry> := [Entry(200, 2)];
    var b: seq<Entry> := [Entry(3, 1)] + c;
    var a: seq<Entry> := [Entry(1, 1)] + b;
    assert c[1..] == [] && b[1..] == c && a[1..] == b;
    assert a == [Entry(1, 1), Entry(3, 1), Entry(200, 2)];
    assert Varint(1) == [0x01] && Varint(2) == [0x02] && Varint(1) + Varint(1) == [0x01, 0x01];
    assert Varint(196) == [0xc4, 0x01];
    assert SerializeFrom(c, 4) == [0xc4, 0x01, 0x02];
    assert SerializeFrom(b, 2) == [0x01, 0x01] + SerializeFrom(c, 4);
  }

  function ParseMap(data: Bytes): Result<SigMap> {
    match ParseFrom(data, 0, 0)
    case Err => Err
    case Ok(es) => Ok(ToMap(es))
  }

  /** `serialize`: any map survives the byte form. */
  function Serialize(m: SigMap): (r: Bytes)
    ensures ParseMap(r) == Ok(m)
    ensures r == [] <==> m == map[]
  {
    EntriesAscending(m, 0);
    var r := SerializeFrom(Entries(m), 0);
    assert r[0..|r|] == r;
    ParseSerialized(r, 0, Entries(m), 0);
    r
  }

  lemma InsertThenRest(out: SigMap, e: Entry, es: seq<Entry>)
    ensures out + ToMap([e] + es) == out[e.signal := e.state] + ToMap(es)
  {
    assert ([e] + es)[1..] == es;
  }

  /** `PointDataIterator`: a cursor that validates blobs as they are read. */
  class PointDataIterator {
    const data: Bytes
    var curPos: nat
    var curSignal: nat

    ghost predicate Valid() reads this { curPos <= |data| }

    /** What is still to come. */
    ghost function Rest(): Result<seq<Entry>>
      reads this
      requires Valid()
    {
      ParseFrom(data, curPos, curSignal)
    }

    constructor (data: Bytes)
      ensures Valid() && this.data == data && Rest() == ParseFrom(data, 0, 0)
    {
      this.data := data;
      curPos, curSignal := 0, 0;
    }

    method Next() returns (r: Result<Option<Entry>>)
      requires Valid()
      modifies this
      ensures Valid()
      ensures match r
              case Err => old(Rest()) == Err && curPos == old(curPos)
              case Ok(None) => old(Rest()) == Ok([]) && curPos == |data|
              case Ok(Some(e)) =>
                && curPos > old(curPos)
                && old(curSignal) <= e.signal as int == curSignal - 1
                && old(Rest()) == match Rest() case Err => Err case Ok(es) => Ok([e] + es)
    {
      if curPos == |data| {
        return Ok(None);
      }
      var d := DecodeVarint32(data, curPos);
      if d.None? {
        return Err;
      }
      var s := DecodeVarint32(data, d.value.1);
      if s.None? || curSignal + d.value.0 >= 0x1_0000_0000 || s.value.0 > 0xFFFF {
        return Err;
      }
      var signal: nat := curSignal + d.value.0;
      curPos := s.value.1;
      curSignal := signal + 1;
      return Ok(Some(Entry(signal as SignalId, s.value.0 as StateNo)));
    }

    /** `into_map`. */
    method IntoMap() returns (r: Result<SigMap>)
      requires Valid() && curPos == 0 && curSignal == 0
      modifies this
      ensures r == ParseMap(data)
    {
      var out: SigMap := map[];
      if Rest().Ok? {
        assert out + ToMap(Rest().value) == ToMap(Rest().value);
      }
      while true
        invariant Valid()
        invariant ParseMap(data) == match Rest() case Err => Err case Ok(es) => Ok(out + ToMap(es))
        decreases |data| - curPos
      {
        var n := Next();
        if n.Err? {
          return Err;
        }
        match n.value {
          case None =>
            assert out + ToMap([]) == out;
            return Ok(out);
          case Some(e) =>
            if Rest().Ok? {
              InsertThenRest(out, e, Rest().value);
            }
            out := out[e.signal := e.state];
        }
      }
    }
  }

  // -- points ------------------------------------------------------------------------------

  datatype Point = Point(data: Bytes, changesOff: nat)

  ghost predicate ValidPoint(p: Point) {
    && p.changesOff <= |p.data|
    && ParseMap(p.data[..p.changesOff]).Ok?
    && ParseMap(p.data[p.changesOff..]).Ok?
  }

  /** The state immediately before the point. */
  function Prev(p: Point): SigMap
    requires ValidPoint(p)
  {
    ParseMap(p.data[..p.changesOff]).value
  }

  /** The changes the point makes. */
  function Changes(p: Point): SigMap
    requires ValidPoint(p)
  {
    ParseMap(p.data[p.changesOff..]).value
  }

  /** `Point::new`. */
  function NewPoint(prev: SigMap, changes: Bytes): (p: Point)
    requires ParseMap(changes).Ok?
    ensures ValidPoint(p) && Prev(p) == prev && Changes(p) == ParseMap(changes).value
    ensures p.data[p.changesOff..] == changes
  {
    var front := Serialize(prev);
    assert (front + changes)[..|front|] == front && (front + changes)[|front|..] == changes;
    Point(front + changes, |front|)
  }

  /** `update_map`: applies changes, where a change to 0 removes the signal. */
  function ApplyChanges(m: SigMap, changes: SigMap): (r: SigMap)
    ensures forall s | s in r :: (if s in changes then changes[s] != 0 && r[s] == changes[s] else s in m && r[s] == m[s])
    ensures forall s | s in m && s !in changes :: s in r
    ensures forall s | s in changes && changes[s] != 0 :: s in r
  {
    map s | s in m.Keys + changes.Keys && (if s in changes then changes[s] != 0 else true) ::
      if s in changes then changes[s] else m[s]
  }

  /** `Point::after`. */
  function After(p: Point): SigMap
    requires ValidPoint(p)
  {
    ApplyChanges(Prev(p), Changes(p))
  }

  /** The state a map gives a signal: absent means 0, unknown. */
  function Get(m: SigMap, s: SignalId): StateNo {
    if s in m then m[s] else 0
  }

  lemma GetApplied(m: SigMap, changes: SigMap, s: SignalId)
    ensures Get(ApplyChanges(m, changes), s) == if s in changes then changes[s] else Get(m, s)
  {
  }

  // -- trimming changes --------------------------------------------------------------------

  /** The pairs of signals not in `drop`. */
  ghost function Trim(es: seq<Entry>, drop: seq<SignalId>): seq<Entry> {
    if es == [] then []
    else if es[0].signal in drop then Trim(es[1..], drop)
    else [es[0]] + Trim(es[1..], drop)
  }

  lemma {:induction false} TrimAscending(es: seq<Entry>, from: int, drop: seq<SignalId>)
    requires Ascending(es, from)
    ensures Ascending(Trim(es, drop), from)
  {
    if es != [] {
      TrimAscending(es[1..], es[0].signal as int + 1, drop);
      if es[0].signal in drop {
        AscendingLower(Trim(es[1..], drop), es[0].signal as int + 1, from);
      } else {
        assert Trim(es, drop)[1..] == Trim(es[1..], drop);
      }
    }
  }

  lemma AscendingLower(es: seq<Entry>, from: int, lower: int)
    requires Ascending(es, from) && lower <= from
    ensures Ascending(es, lower)
  {
  }

  lemma {:induction false} TrimToMap(es: seq<Entry>, drop: seq<SignalId>)
    ensures ToMap(Trim(es, drop)) == ToMap(es) - (set s | s in drop)
  {
    if es != [] {
      TrimToMap(es[1..], drop);
      var gone := set s | s in drop;
      var head := map[es[0].signal := es[0].state];
      if es[0].signal in drop {
        assert ToMap(es) - gone == ToMap(es[1..]) - gone;
      } else {
        assert ToMap(es) - gone == head + (ToMap(es[1..]) - gone);
        assert Trim(es, drop)[1..] == Trim(es[1..], drop);
      }
    }
  }

  lemma {:induction false} ParseAscending(data: Bytes, pos: nat, cur: nat)
    requires pos <= |data| && ParseFrom(data, pos, cur).Ok?
    ensures Ascending(ParseFrom(data, pos, cur).value, cur)
    decreases |data| - pos
  {
    if pos < |data| {
      var (e, end) := ParseOne(data, pos, cur).value;
      ParseAscending(data, end, e.signal as int + 1);
      var rest := ParseFrom(data, end, e.signal as int + 1).value;
      assert ([e] + rest)[1..] == rest;
    }
  }

  /** Where the trimming loop stands: `rest` is still to be read, `kept` written. */
  ghost predicate Trimming(all: seq<Entry>, drop: seq<SignalId>, rest: seq<Entry>, next: nat, kept: Bytes, dirty: bool) {
    && Ascending(Trim(all, drop), 0) && Ascending(rest, next) && Ascending(Trim(rest, drop), next)
    && kept + SerializeFrom(Trim(rest, drop), next) == SerializeFrom(Trim(all, drop), 0)
    && (!dirty ==> |Trim(all, drop)| - |all| == |Trim(rest, drop)| - |rest|)
  }

  lemma TrimStep(all: seq<Entry>, drop: seq<SignalId>, e: Entry, rest: seq<Entry>, next: nat, kept: Bytes, dirty: bool)
    requires Trimming(all, drop, [e] + rest, next, kept, dirty)
    ensures next <= e.signal as int
    ensures if e.signal in drop then Trimming(all, drop, rest, next, kept, true)
            else Trimming(all, drop, rest, e.signal as int + 1, kept + Pair(e, next), dirty)
  {
    assert ([e] + rest)[1..] == rest;
    if e.signal in drop {
      AscendingLower(rest, e.signal as int + 1, next);
    } else {
      TrimAscending(rest, e.signal as int + 1, drop);
      assert Trim([e] + rest, drop)[1..] == Trim(rest, drop);
      var tail := SerializeFrom(Trim(rest, drop), e.signal as int + 1);
      assert kept + (Pair(e, next) + tail) == kept + Pair(e, next) + tail;
    }
  }

  /** The trimming loop of `update_signals_middle`: re-encodes the kept pairs one by one. */
  method TrimChanges(changes: Bytes, drop: seq<SignalId>) returns (kept: Bytes, dirty: bool)
    requires ParseMap(changes).Ok?
    ensures ParseMap(kept) == Ok(ParseMap(changes).value - (set s | s in drop))
    ensures kept == [] <==> ParseMap(kept) == Ok(map[])
    ensures !dirty ==> ParseMap(kept) == ParseMap(changes)
  {
    ghost var all := ParseFrom(changes, 0, 0).value;
    TrimBegin(changes, drop);
    var it := new PointDataIterator(changes);
    var next: nat := 0;
    kept, dirty := [], false;
    while true
      invariant it.Valid() && it.data == changes && fresh(it) && it.Rest().Ok?
      invariant Trimming(all, drop, it.Rest().value, next, kept, dirty)
      decreases |changes| - it.curPos
    {
      var n := it.Next();
      if n.value.None? {
        break;
      }
      var e := n.value.value;
      TrimStep(all, drop, e, it.Rest().value, next, kept, dirty);
      if e.signal in drop {
        dirty := true;
      } else {
        kept := AppendPair(e, next, kept);
        next := e.signal as int + 1;
      }
    }
    TrimEnd(all, drop, next, kept, dirty);
  }

  lemma TrimBegin(changes: Bytes, drop: seq<SignalId>)
    requires ParseMap(changes).Ok?
    ensures var all := ParseFrom(changes, 0, 0).value; Trimming(all, drop, all, 0, [], false)
  {
    ParseAscending(changes, 0, 0);
    var all := ParseFrom(changes, 0, 0).value;
    TrimAscending(all, 0, drop);
    assert [] + SerializeFrom(Trim(all, drop), 0) == SerializeFrom(Trim(all, drop), 0);
  }

  lemma TrimEnd(all: seq<Entry>, drop: seq<SignalId>, next: nat, kept: Bytes, dirty: bool)
    requires Trimming(all, drop, [], next, kept, dirty)
    ensures ParseMap(kept) == Ok(ToMap(all) - (set s | s in drop))
    ensures kept == [] <==> ParseMap(kept) == Ok(map[])
    ensures !dirty ==> ParseMap(kept) == Ok(ToMap(all))
  {
    assert kept + SerializeFrom([], next) == kept;
    TrimmedBytes(all, drop, kept);
    if !dirty {
      TrimNothing(all, drop);
      TrimToMap(all, drop);
    }
  }

  method AppendPair(e: Entry, next: nat, data: Bytes) returns (r: Bytes)
    requires next <= e.signal as int
    ensures r == data + Pair(e, next)
  {
    r := AppendVarint32(e.signal as int - next, data);
    r := AppendVarint32(e.state as int, r);
  }

  lemma TrimmedBytes(all: seq<Entry>, drop: seq<SignalId>, kept: Bytes)
    requires Ascending(Trim(all, drop), 0) && kept == SerializeFrom(Trim(all, drop), 0)
    ensures ParseMap(kept) == Ok(ToMap(all) - (set s | s in drop))
    ensures kept == [] <==> ParseMap(kept) == Ok(map[])
  {
    assert kept[0..|kept|] == kept;
    ParseSerialized(kept, 0, Trim(all, drop), 0);
    TrimToMap(all, drop);
    if Trim(all, drop) != [] {
      assert Trim(all, drop)[0].signal in ToMap(Trim(all, drop));
    }
  }

  lemma {:induction false} TrimNothing(es: seq<Entry>, drop: seq<SignalId>)
    ensures |Trim(es, drop)| <= |es|
    ensures |Trim(es, drop)| == |es| ==> Trim(es, drop) == es
  {
    if es != [] {
      TrimNothing(es[1..], drop);
    }
  }
}
