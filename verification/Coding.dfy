/** Zigzag and base-128 varint coding (server/db/coding.rs). Shifts and masks are written as
    multiplication, division and remainder by powers of two. */
module Coding {
  import opened Base

  /** `i << 1` on 32 bits, then xor with the sign mask: xor with zero is the identity, xor with
      all ones is the complement. */
  function Zigzag32(i: i32): u32 {
    var shifted := (2 * i) % 0x1_0000_0000;
    if i < 0 then 0xFFFF_FFFF - shifted else shifted
  }

  /** `i >> 1`, then xor with minus the low bit (all ones exactly when the low bit is set). */
  function Unzigzag32(i: u32): i32 {
    var half := i / 2;
    if i % 2 == 1 then -1 - half else half
  }

  /** Both functions are bijections, inverse to each other, and a magnitude below `2^(k-1)` needs
      only k bits: that is what leaves room for the flag bit the sample index adds. */
  lemma ZigzagInverse(i: i32, u: u32)
    ensures Unzigzag32(Zigzag32(i)) == i && Zigzag32(Unzigzag32(u)) == u
    ensures Zigzag32(i) == if i >= 0 then 2 * i else -2 * i - 1
  {
    if i < 0 {
      assert (2 * i) % 0x1_0000_0000 == 2 * i + 0x1_0000_0000;
    }
    var j: int := Unzigzag32(u);
    if j < 0 {
      assert (2 * j) % 0x1_0000_0000 == 2 * j + 0x1_0000_0000;
    }
  }

  /** The canonical encoding: seven bits a byte, low group first, high bit set on all but the
      last. */
  function Varint(i: u32): (r: Bytes)
    ensures 1 <= |r| <= 5
    ensures |r| == if i < 0x80 then 1 else if i < 0x4000 then 2 else if i < 0x20_0000 then 3
                   else if i < 0x1000_0000 then 4 else 5
  {
    if i < 0x80 then [i as byte] else [(i % 0x80 + 0x80) as byte] + Varint(i / 0x80)
  }

  /** A group with more to follow. */
  function More(i: nat): byte { (i % 0x80 + 0x80) as byte }

  /** `append_varint32`: five unrolled cases. */
  method AppendVarint32(i: u32, data: Bytes) returns (r: Bytes)
    ensures r == data + Varint(i)
  {
    VarintUnrolled(i);
    if i < 0x80 {
      r := data + [i as byte];
    } else if i < 0x4000 {
      r := data + [More(i), (i / 0x80) as byte];
    } else if i < 0x20_0000 {
      r := data + [More(i), More(i / 0x80), (i / 0x4000) as byte];
    } else if i < 0x1000_0000 {
      r := data + [More(i), More(i / 0x80), More(i / 0x4000), (i / 0x20_0000) as byte];
    } else {
      r := data + [More(i), More(i / 0x80), More(i / 0x4000), More(i / 0x20_0000), (i / 0x1000_0000) as byte];
    }
  }

  lemma VarintUnrolled(i: u32)
    ensures i >= 0x1000_0000 ==> Varint(i) == [More(i), More(i / 0x80), More(i / 0x4000), More(i / 0x20_0000), (i / 0x1000_0000) as byte]
    ensures 0x20_0000 <= i < 0x1000_0000 ==> Varint(i) == [More(i), More(i / 0x80), More(i / 0x4000), (i / 0x20_0000) as byte]
    ensures 0x4000 <= i < 0x20_0000 ==> Varint(i) == [More(i), More(i / 0x80), (i / 0x4000) as byte]
    ensures 0x80 <= i < 0x4000 ==> Varint(i) == [More(i), (i / 0x80) as byte]
  {
    var a, b, c, d := i / 0x80, i / 0x4000, i / 0x20_0000, i / 0x1000_0000;
    assert b == a / 0x80 && c == b / 0x80 && d == c / 0x80;
    assert c >= 0x80 ==> Varint(c) == [More(c), d as byte];
    assert b >= 0x80 ==> Varint(b) == [More(b)] + Varint(c);
    assert a >= 0x80 ==> Varint(a) == [More(a)] + Varint(b);
  }

  /** Reference decoder: the value and end of the varint at `i`, where `k` groups precede it.
      The fifth group may only carry four bits and must be the last. */
  function DecodeFrom(data: Bytes, i: nat, k: nat): (r: Option<(nat, nat)>)
    requires i <= |data| && k <= 4
    ensures r.Some? ==> i < r.value.1 <= |data| && r.value.0 < Limit(k)
    decreases 4 - k
  {
    if i == |data| then None
    else
      var b := data[i] as int;
      if k == 4 && b >= 0x10 then None
      else if b < 0x80 then Some((b, i + 1))
      else
        match DecodeFrom(data, i + 1, k + 1)
        case None => None
        case Some((v, e)) => Some((b % 0x80 + 0x80 * v, e))
  }

  /** The value of a group, `v << 7 * k`. */
  function Place(k: nat, v: nat): nat
    requires k <= 4
  {
    if k == 0 then v else if k == 1 then 0x80 * v else if k == 2 then 0x4000 * v
    else if k == 3 then 0x20_0000 * v else 0x1000_0000 * v
  }

  /** What is left of 32 bits after k groups. */
  function Limit(k: nat): nat
    requires k <= 4
  {
    if k == 0 then 0x1_0000_0000 else if k == 1 then 0x200_0000 else if k == 2 then 0x4_0000
    else if k == 3 then 0x800 else 0x10
  }

  function Decode(data: Bytes, i: nat): (r: Option<(nat, nat)>)
    requires i <= |data|
    ensures r.Some? ==> i < r.value.1 <= |data| && r.value.0 < 0x1_0000_0000
  {
    DecodeFrom(data, i, 0)
  }

  /** Prepending a group to a decoded tail. */
  lemma Regroup(k: nat, low: nat, v: nat)
    requires k < 4
    ensures Place(k, low + 0x80 * v) == Place(k, low) + Place(k + 1, v)
  {
  }

  /** `decode_varint32_slow`: the loop over groups. */
  method DecodeVarint32Slow(data: Bytes, start: nat) returns (r: Option<(nat, nat)>)
    requires start <= |data|
    ensures r == Decode(data, start)
  {
    var i, k := start, 0;
    var out: nat := 0;
    while true
      invariant start <= i <= |data| && 0 <= k <= 4
      invariant Decode(data, start) == match DecodeFrom(data, i, k)
                                       case None => None
                                       case Some((v, e)) => Some((out + Place(k, v), e))
      decreases 5 - k
    {
      if i == |data| {
        return None;
      }
      var b := data[i] as int;
      if k == 4 && b >= 0x10 {
        return None;
      }
      if b < 0x80 {
        return Some((out + Place(k, b), i + 1));
      }
      ghost var rest := DecodeFrom(data, i + 1, k + 1);
      if rest.Some? {
        Regroup(k, b % 0x80, rest.value.0);
      }
      out := out + Place(k, b % 0x80);
      k, i := k + 1, i + 1;
    }
  }

  /** `decode_varint32`: one, two and three byte cases unrolled ahead of the loop. */
  method DecodeVarint32(data: Bytes, i: nat) returns (r: Option<(nat, nat)>)
    requires i <= |data|
    ensures r == Decode(data, i)
  {
    if |data| > i && data[i] < 0x80 {
      return Some((data[i] as int, i + 1));
    } else if |data| > i + 1 && data[i + 1] < 0x80 {
      var b0, b1 := data[i] as int, data[i + 1] as int;
      assert DecodeFrom(data, i + 1, 1) == Some((b1, i + 2));
      return Some((b0 % 0x80 + b1 * 0x80, i + 2));
    } else if |data| > i + 2 && data[i + 2] < 0x80 {
      var b0, b1, b2 := data[i] as int, data[i + 1] as int, data[i + 2] as int;
      assert DecodeFrom(data, i + 2, 2) == Some((b2, i + 3));
      assert DecodeFrom(data, i + 1, 1) == Some((b1 % 0x80 + 0x80 * b2, i + 3));
      return Some((b0 % 0x80 + b1 % 0x80 * 0x80 + b2 * 0x4000, i + 3));
    }
    r := DecodeVarint32Slow(data, i);
  }

  /** Decoding an encoded value, wherever it stands, gives back the value and its end. */
  lemma VarintRoundTrip(data: Bytes, i: nat, x: u32)
    requires At(data, i, Varint(x))
    ensures Decode(data, i) == Some((x, i + |Varint(x)|))
  {
    RoundTripFrom(data, i, x, 0);
  }

  lemma {:induction false} RoundTripFrom(data: Bytes, i: nat, x: u32, k: nat)
    requires k <= 4 && x < Limit(k)
    requires At(data, i, Varint(x))
    ensures DecodeFrom(data, i, k) == Some((x, i + |Varint(x)|))
    decreases 4 - k
  {
    assert data[i] == data[i..i + |Varint(x)|][0];
    if x >= 0x80 {
      AtSplit(data, i, [More(x)], Varint(x / 0x80));
      RoundTripFrom(data, i + 1, x / 0x80, k + 1);
    }
  }
}
