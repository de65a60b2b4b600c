/** Big-endian integers, as boxes hold them. */
module BigEndian {
  import opened Base

  function U32(x: nat): (r: Bytes)
    requires x < 0x1_0000_0000
    ensures |r| == 4
  {
    [(x / 0x100_0000) as byte, (x / 0x1_0000 % 0x100) as byte, (x / 0x100 % 0x100) as byte, (x % 0x100) as byte]
  }

  function Read32(data: Bytes, i: nat): (x: nat)
    requires i + 4 <= |data|
    ensures x < 0x1_0000_0000
  {
    data[i] as nat * 0x100_0000 + data[i + 1] as nat * 0x1_0000 + data[i + 2] as nat * 0x100 + data[i + 3] as nat
  }

  function U64(x: nat): (r: Bytes)
    requires x < 0x1_0000_0000_0000_0000
    ensures |r| == 8
  {
    U32(x / 0x1_0000_0000) + U32(x % 0x1_0000_0000)
  }

  function Read64(data: Bytes, i: nat): nat
    requires i + 8 <= |data|
  {
    Read32(data, i) * 0x1_0000_0000 + Read32(data, i + 4)
  }

  lemma Digits(x: nat)
    requires x < 0x1_0000_0000
    ensures x == x / 0x100_0000 * 0x100_0000 + x / 0x1_0000 % 0x100 * 0x1_0000 + x / 0x100 % 0x100 * 0x100 + x % 0x100
  {
    var a, b := x / 0x100, x / 0x1_0000;
    assert b == a / 0x100 && x / 0x100_0000 == b / 0x100;
    assert x == a * 0x100 + x % 0x100 && a == b * 0x100 + a % 0x100 && b == b / 0x100 * 0x100 + b % 0x100;
  }

  /** What was written is read back, wherever it stands. */
  lemma Back32(data: Bytes, i: nat, x: nat)
    requires x < 0x1_0000_0000 && At(data, i, U32(x))
    ensures Read32(data, i) == x
  {
    var piece := data[i..i + 4];
    assert piece[0] == data[i] && piece[1] == data[i + 1] && piece[2] == data[i + 2] && piece[3] == data[i + 3];
    Digits(x);
  }

  lemma Back64(data: Bytes, i: nat, x: nat)
    requires x < 0x1_0000_0000_0000_0000 && At(data, i, U64(x))
    ensures Read64(data, i) == x
  {
    AtSplit(data, i, U32(x / 0x1_0000_0000), U32(x % 0x1_0000_0000));
    Back32(data, i, x / 0x1_0000_0000);
    Back32(data, i + 4, x % 0x1_0000_0000);
  }

  /** Overwriting part of a buffer in place. */
  function Put(data: Bytes, i: nat, piece: Bytes): (r: Bytes)
    requires i + |piece| <= |data|
    ensures |r| == |data|
  {
    data[..i] + piece + data[i + |piece|..]
  }
}
