/** A body made of many slices, served by byte range (server/src/slices.rs). */
module Slices {
  import opened Base

  /** A slice knows where it ends; its bytes are made when asked for. */
  datatype Slice = Slice(end: nat, body: Bytes)

  ghost function Concat(chunks: seq<Bytes>): Bytes {
    if chunks == [] then [] else Concat(chunks[..|chunks| - 1]) + chunks[|chunks| - 1]
  }

  /** Where slice i starts. */
  function StartOf(slices: seq<Slice>, i: nat): nat
    requires i <= |slices|
  {
    if i == 0 then 0 else slices[i - 1].end
  }

  /** Each slice ends after the one before and makes as many bytes as it has room for. */
  ghost predicate Ordered(slices: seq<Slice>) {
    forall i | 0 <= i < |slices| :: Fits(slices, i)
  }

  ghost predicate Fits(slices: seq<Slice>, i: nat)
    requires i < |slices|
  {
    StartOf(slices, i) < slices[i].end && |slices[i].body| == slices[i].end - StartOf(slices, i)
  }

  /** The bytes of the first n slices. */
  ghost function Whole(slices: seq<Slice>, n: nat): Bytes
    requires n <= |slices|
  {
    if n == 0 then [] else Whole(slices, n - 1) + slices[n - 1].body
  }

  lemma {:induction false} WholeLength(slices: seq<Slice>, n: nat)
    requires Ordered(slices) && n <= |slices|
    ensures |Whole(slices, n)| == StartOf(slices, n)
  {
    if n > 0 {
      assert Fits(slices, n - 1);
      WholeLength(slices, n - 1);
    }
  }

  lemma {:induction false} WholePrefix(slices: seq<Slice>, m: nat, n: nat)
    requires Ordered(slices) && m <= n <= |slices|
    ensures StartOf(slices, m) <= StartOf(slices, n)
    ensures |Whole(slices, n)| == StartOf(slices, n) && Whole(slices, n)[..StartOf(slices, m)] == Whole(slices, m)
  {
    WholeLength(slices, n);
    WholeLength(slices, m);
    if m < n {
      assert Fits(slices, n - 1);
      WholePrefix(slices, m, n - 1);
      assert Whole(slices, n)[..StartOf(slices, m)] == Whole(slices, n - 1)[..StartOf(slices, m)];
    }
  }

  /** The whole body contains each slice's bytes in its place. */
  lemma WholeAt(slices: seq<Slice>, i: nat)
    requires Ordered(slices) && i < |slices|
    ensures StartOf(slices, i) <= slices[i].end <= |Whole(slices, |slices|)|
    ensures Whole(slices, |slices|)[StartOf(slices, i)..slices[i].end] == slices[i].body
  {
    assert Fits(slices, i);
    WholePrefix(slices, i + 1, |slices|);
    WholeLength(slices, i);
    var part := Whole(slices, |slices|)[..slices[i].end];
    assert part == Whole(slices, i) + slices[i].body;
    assert Whole(slices, |slices|)[StartOf(slices, i)..slices[i].end] == part[StartOf(slices, i)..];
  }

  lemma {:induction false} WholeSame(a: seq<Slice>, b: seq<Slice>, n: nat)
    requires n <= |a| && n <= |b| && a[..n] == b[..n]
    ensures Whole(a, n) == Whole(b, n)
  {
    if n > 0 {
      assert a[..n - 1] == a[..n][..n - 1] && b[..n - 1] == b[..n][..n - 1];
      assert a[..n][n - 1] == b[..n][n - 1];
      WholeSame(a, b, n - 1);
    }
  }

  /** What the binary search over ends returns: the slice that ends at `key`, or where one would be
      inserted. */
  ghost predicate Searched(slices: seq<Slice>, key: nat, found: bool, i: nat) {
    if found then i < |slices| && slices[i].end == key
    else
      && i <= |slices| && (forall j | 0 <= j < i :: slices[j].end < key)
      && (forall j | i <= j < |slices| :: slices[j].end > key)
  }

  lemma {:induction false} EndsGrow(slices: seq<Slice>, i: nat, j: nat)
    requires Ordered(slices) && i < j < |slices|
    ensures slices[i].end < slices[j].end
  {
    assert Fits(slices, j);
    if i < j - 1 {
      EndsGrow(slices, i, j - 1);
    }
  }

  method BinarySearch(slices: seq<Slice>, key: nat) returns (found: bool, i: nat)
    requires Ordered(slices)
    ensures Searched(slices, key, found, i)
  {
    var lo, hi := 0, |slices|;
    while lo < hi
      invariant 0 <= lo <= hi <= |slices|
      invariant forall j | 0 <= j < lo :: slices[j].end < key
      invariant forall j | hi <= j < |slices| :: slices[j].end > key
    {
      var mid := (lo + hi) / 2;
      if slices[mid].end == key {
        return true, mid;
      }
      forall j | 0 <= j < mid ensures slices[j].end < slices[mid].end {
        EndsGrow(slices, j, mid);
      }
      forall j | mid < j < |slices| ensures slices[mid].end < slices[j].end {
        EndsGrow(slices, mid, j);
      }
      if slices[mid].end < key {
        lo := mid + 1;
      } else {
        hi := mid;
      }
    }
    return false, lo;
  }

  class Slices {
    /** The total byte length. */
    var len: nat
    var slices: seq<Slice>

    ghost predicate Valid()
      reads this
    {
      Ordered(slices) && len == StartOf(slices, |slices|)
    }

    ghost function Body(): Bytes
      reads this
    {
      Whole(slices, |slices|)
    }

    constructor ()
      ensures Valid() && Body() == []
    {
      len, slices := 0, [];
    }

    /** `append`. */
    method Append(slice: Slice) returns (ok: bool)
      requires Valid() && (slice.end > len ==> |slice.body| == slice.end - len)
      modifies this
      ensures Valid() && (ok <==> slice.end > old(len))
      ensures Body() == if ok then old(Body()) + slice.body else old(Body())
      ensures len == if ok then slice.end else old(len)
    {
      if slice.end <= len {
        return false;
      }
      ghost var before := slices;
      slices := slices + [slice];
      WholeSame(before, slices, |before|);
      forall i | 0 <= i < |slices| ensures Fits(slices, i) {
        assert i < |before| ==> Fits(before, i);
      }
      len := slice.end;
      return true;
    }

    /** `get_range`: the chunks concatenate to exactly the bytes asked for. */
    method GetRange(start: nat, end: nat) returns (r: Result<seq<Bytes>>)
      requires Valid()
      ensures r.Err? <==> start > end || end > len
      ensures |Body()| == len
      ensures r.Ok? ==> Concat(r.value) == Body()[start..end]
    {
      WholeLength(slices, |slices|);
      if start > end || end > len {
        return Err;
      }
      var chunks := Chunks(slices, start, end);
      return Ok(chunks);
    }
  }

  /** The chunks of a valid range: the binary search, then the walk. */
  method Chunks(slices: seq<Slice>, start: nat, end: nat) returns (chunks: seq<Bytes>)
    requires Ordered(slices) && start <= end <= StartOf(slices, |slices|) == |Whole(slices, |slices|)|
    ensures Concat(chunks) == Whole(slices, |slices|)[start..end]
  {
    var found, i := BinarySearch(slices, start);
    var sliceStart := 0;
    if found {
      i, sliceStart := i + 1, slices[i].end;
    } else if i > 0 {
      sliceStart := slices[i - 1].end;
    }
    Located(slices, start, found, if found then i - 1 else i);
    var startPos := start - sliceStart;
    chunks := [];
    assert Concat(chunks) == [] == Whole(slices, |slices|)[start..start];
    hide Whole, Concat, Searched;
    while i < |slices| && end != sliceStart + startPos
      invariant i <= |slices| && 0 <= startPos && start <= sliceStart + startPos <= end
      invariant sliceStart + startPos != end ==>
                  sliceStart == StartOf(slices, i) && i < |slices| && sliceStart + startPos <= slices[i].end
      invariant Concat(chunks) == Whole(slices, |slices|)[start..sliceStart + startPos]
      decreases |slices| - i
    {
      var s := slices[i];
      var minEnd := Min(end, s.end);
      assert Fits(slices, i);
      NextEnd(slices, i);
      ChunkAppended(slices, start, sliceStart, startPos, minEnd, i, chunks);
      chunks := chunks + [s.body[startPos..minEnd - sliceStart]];
      i, startPos, sliceStart := i + 1, 0, minEnd;
    }
  }

  /** The first slice to write starts at or before the range. */
  lemma Located(slices: seq<Slice>, start: nat, found: bool, i: nat)
    requires Ordered(slices) && Searched(slices, start, found, i) && start <= StartOf(slices, |slices|)
    ensures var first := if found then i + 1 else i;
            && first <= |slices| && StartOf(slices, first) <= start
            && (first < |slices| ==> start < slices[first].end) && (first == |slices| ==> start == StartOf(slices, first))
  {
    if found && i + 1 < |slices| {
      EndsGrow(slices, i, i + 1);
    }
  }

  lemma NextEnd(slices: seq<Slice>, i: nat)
    requires Ordered(slices) && i < |slices|
    ensures slices[i].end <= StartOf(slices, |slices|)
    ensures if i + 1 < |slices| then slices[i].end < slices[i + 1].end else slices[i].end == StartOf(slices, |slices|)
  {
    WholePrefix(slices, i + 1, |slices|);
    if i + 1 < |slices| {
      EndsGrow(slices, i, i + 1);
    }
  }

  lemma Subrange(whole: Bytes, a: nat, b: nat, i: nat, j: nat)
    requires a <= b <= |whole| && i <= j <= b - a
    ensures whole[a..b][i..j] == whole[a + i..a + j]
  {
    var x, y := whole[a..b][i..j], whole[a + i..a + j];
    assert |x| == |y| && forall k | 0 <= k < |x| :: x[k] == whole[a + i + k] == y[k];
  }

  lemma Joined(whole: Bytes, a: nat, m: nat, b: nat)
    requires a <= m <= b <= |whole|
    ensures whole[a..m] + whole[m..b] == whole[a..b]
  {
    assert whole[a..b][..m - a] == whole[a..m] && whole[a..b][m - a..] == whole[m..b];
  }

  lemma ConcatMore(chunks: seq<Bytes>, chunk: Bytes)
    ensures Concat(chunks + [chunk]) == Concat(chunks) + chunk
  {
    assert (chunks + [chunk])[..|chunks|] == chunks;
  }

  lemma ChunkAppended(slices: seq<Slice>, start: nat, sliceStart: nat, startPos: nat, minEnd: nat, i: nat, chunks: seq<Bytes>)
    requires Ordered(slices) && i < |slices| && sliceStart == StartOf(slices, i)
    requires start <= sliceStart + startPos <= minEnd <= slices[i].end <= |Whole(slices, |slices|)|
    requires Concat(chunks) == Whole(slices, |slices|)[start..sliceStart + startPos]
    ensures minEnd - sliceStart <= |slices[i].body|
    ensures Concat(chunks + [slices[i].body[startPos..minEnd - sliceStart]]) == Whole(slices, |slices|)[start..minEnd]
  {
    hide Whole, Concat;
    WholeAt(slices, i);
    assert Fits(slices, i);
    var whole, body := Whole(slices, |slices|), slices[i].body;
    Subrange(whole, sliceStart, slices[i].end, startPos, minEnd - sliceStart);
    Joined(whole, start, sliceStart + startPos, minEnd);
    ConcatMore(chunks, body[startPos..minEnd - sliceStart]);
  }
}
