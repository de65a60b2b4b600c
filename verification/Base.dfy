/** Integer widths and result types shared by the whole model. */
module Base {
  newtype byte = x: int | 0 <= x < 0x100
  type u16 = x: int | 0 <= x < 0x1_0000
  type u32 = x: int | 0 <= x < 0x1_0000_0000
  type u64 = x: int | 0 <= x < 0x1_0000_0000_0000_0000
  type i32 = x: int | -0x8000_0000 <= x < 0x8000_0000

  type Bytes = seq<byte>

  /** `piece` stands in `data` at position `i`. */
  ghost predicate At<T>(data: seq<T>, i: int, piece: seq<T>) {
    0 <= i <= i + |piece| <= |data| && data[i..i + |piece|] == piece
  }

  lemma AtSplit<T>(data: seq<T>, i: int, a: seq<T>, b: seq<T>)
    requires At(data, i, a + b)
    ensures At(data, i, a) && At(data, i + |a|, b)
  {
    var whole := data[i..i + |a + b|];
    assert data[i..i + |a|] == whole[..|a|] == a;
    assert data[i + |a|..i + |a| + |b|] == whole[|a|..] == b;
  }

  lemma AtBound<T>(data: seq<T>, i: int, piece: seq<T>)
    requires At(data, i, piece)
    ensures 0 <= i <= i + |piece| <= |data| && data[i..i + |piece|] == piece
  {
  }

  lemma AtLonger<T>(data: seq<T>, more: seq<T>, i: int, piece: seq<T>)
    requires At(data, i, piece)
    ensures At(data + more, i, piece)
  {
    assert (data + more)[i..i + |piece|] == data[i..i + |piece|];
  }

  lemma AtEnd<T>(front: seq<T>, piece: seq<T>)
    ensures At(front + piece, |front|, piece)
  {
    assert (front + piece)[|front|..|front| + |piece|] == piece;
  }

  datatype Option<+T> = None | Some(value: T)

  /** The source's `Result`; which error message is returned is not modelled. */
  datatype Result<+T> = Ok(value: T) | Err

  function Min(a: int, b: int): (m: int)
    ensures m <= a && m <= b && (m == a || m == b)
  {
    if a <= b then a else b
  }

  function Max(a: int, b: int): (m: int)
    ensures m >= a && m >= b && (m == a || m == b)
  {
    if a >= b then a else b
  }
}

/** Least and greatest elements: how the model asks an ordered map for its first or last key. */
module IntSets {
  ghost predicate IsMin(m: int, s: set<int>) {
    m in s && forall x | x in s :: m <= x
  }

  ghost predicate IsMax(m: int, s: set<int>) {
    m in s && forall x | x in s :: x <= m
  }

  lemma NonEmpty(s: set<int>)
    ensures s == {} || exists y :: y in s
  {
    if forall y :: y !in s {
      assert s == {};
    }
  }

  lemma {:induction false} MinExists(s: set<int>)
    requires s != {}
    ensures exists m :: IsMin(m, s)
  {
    NonEmpty(s);
    var y :| y in s;
    var below := set x | x in s && x < y;
    var m := y;
    if below != {} {
      assert y !in below;
      MinExists(below);
      m :| m in below && IsMin(m, below);
    }
    forall x | x in s ensures m <= x {
      if x < y { assert x in below; }
    }
    assert IsMin(m, s);
  }

  lemma {:induction false} MaxExists(s: set<int>)
    requires s != {}
    ensures exists m :: IsMax(m, s)
  {
    NonEmpty(s);
    var y :| y in s;
    var above := set x | x in s && x > y;
    var m := y;
    if above != {} {
      assert y !in above;
      MaxExists(above);
      m :| m in above && IsMax(m, above);
    }
    forall x | x in s ensures x <= m {
      if x > y { assert x in above; }
    }
    assert IsMax(m, s);
  }

  function MinOf(s: set<int>): (m: int)
    requires s != {}
    ensures IsMin(m, s)
  {
    MinExists(s);
    var m :| m in s && forall x | x in s :: m <= x;
    m
  }

  function MaxOf(s: set<int>): (m: int)
    requires s != {}
    ensures IsMax(m, s)
  {
    MaxExists(s);
    var m :| m in s && forall x | x in s :: x <= m;
    m
  }
}
