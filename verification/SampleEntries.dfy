/** Video sample entries: all in RAM, flushed lazily with the recordings that name them
    (server/db/sample_entries.rs). */
module SampleEntries {
  import opened Base
  import IntSets

  datatype Video = Video(data: Bytes, rfc6381Codec: string, width: u16, height: u16, paspH: u16, paspV: u16)

  /** The fields other than the codec string agree. */
  predicate SameShape(a: Video, b: Video) {
    a.data == b.data && a.width == b.width && a.height == b.height && a.paspH == b.paspH && a.paspV == b.paspV
  }

  ghost predicate DistinctData(entries: map<int, Video>) {
    forall i, j | i in entries && j in entries && entries[i].data == entries[j].data :: i == j
  }

  ghost predicate Increasing(ids: seq<int>) {
    forall i, j | 0 <= i < j < |ids| :: ids[i] < ids[j]
  }

  class State {
    var byId: map<int, Video>
    var next: int
    var toFlush: seq<int>
    /** The table's rows, and how many of `toFlush` are already among them: a commit stores some before
        `post_flush` forgets them. */
    ghost var stored: map<int, Video>
    ghost var flushed: nat

    /** RAM has exactly the stored entries and those that wait. */
    ghost predicate Valid()
      reads this
    {
      && (forall id | id in byId :: id < next) && DistinctData(byId)
      && Increasing(toFlush) && flushed <= |toFlush|
      && (forall id :: id in byId <==> id in stored || id in toFlush)
      && (forall id | id in stored :: id in byId && stored[id] == byId[id])
      && (forall i | 0 <= i < |toFlush| :: toFlush[i] in stored <==> i < flushed)
    }

    /** `load`: ids in the table's order, so the next id is after the largest. */
    constructor Load(rows: map<int, Video>, next: int)
      requires DistinctData(rows) && forall id | id in rows :: id < next
      ensures Valid() && stored == rows && toFlush == [] && byId == rows
    {
      byId, this.next, toFlush, stored, flushed := rows, next, [], rows, 0;
    }

    /** `insert_video`: the id of the entry with the same data if there is one, or a fresh one that waits
        to be flushed; an error, and no change, if an entry has the same data but another shape. */
    method InsertVideo(entry: Video) returns (id: Result<int>)
      requires Valid()
      modifies this`byId, this`next, this`toFlush
      ensures Valid()
      ensures id.Err? <==> exists k :: k in old(byId) && old(byId)[k].data == entry.data
                                      && old(byId)[k].(rfc6381Codec := entry.rfc6381Codec) != entry
      ensures id.Ok? ==> id.value in byId && byId[id.value].(rfc6381Codec := entry.rfc6381Codec) == entry
      ensures if id.Ok? && id.value !in old(byId)
              then byId == old(byId)[id.value := entry] && toFlush == old(toFlush) + [id.value]
              else byId == old(byId) && toFlush == old(toFlush)
    {
      var found := Find(byId, entry.data);
      if found.Some? {
        var k := found.value;
        assert forall j | j in byId && byId[j].data == entry.data :: j == k;
        if !SameShape(byId[k], entry) {
          return Err;
        }
        return Ok(k);
      }
      var added := AddFresh(entry);
      return Ok(added);
    }

    method AddFresh(entry: Video) returns (id: int)
      requires Valid() && forall k | k in byId :: byId[k].data != entry.data
      modifies this`byId, this`next, this`toFlush
      ensures Valid() && id !in old(byId) && byId == old(byId)[id := entry] && toFlush == old(toFlush) + [id]
    {
      id := next;
      next := next + 1;
      assert forall i | 0 <= i < |toFlush| :: toFlush[i] in toFlush;
      byId := byId[id := entry];
      toFlush := toFlush + [id];
      assert forall i | 0 <= i < |toFlush| - 1 :: toFlush[i] == old(toFlush)[i];
    }

    /** `get_entries_to_flush`. */
    method GetEntriesToFlush() returns (ids: seq<int>)
      requires Valid()
      ensures ids == toFlush
    {
      return toFlush;
    }

    /** The commit of what an earlier `get_entries_to_flush` returned: the inserts conflict with no row.
        Entries inserted in between stay behind. */
    ghost method PerformInserts(ids: seq<int>)
      requires Valid() && flushed == 0 && ids <= toFlush
      modifies this`stored, this`flushed
      ensures Valid() && flushed == |ids|
      ensures forall i | 0 <= i < |ids| :: ids[i] !in old(stored) && ids[i] in stored
      ensures forall id :: id in stored <==> id in old(stored) || id in ids
    {
      hide DistinctData;
      PrefixIn(toFlush, ids);
      stored := map id | id in byId && (id in stored || id in ids) :: byId[id];
      flushed := |ids|;
    }

    /** `post_flush`: the entries committed are still the first that wait. */
    method PostFlush(ids: seq<int>)
      requires Valid() && ids <= toFlush && flushed == |ids|
      modifies this`toFlush, this`flushed
      ensures Valid() && flushed == 0 && old(toFlush) == ids + toFlush
    {
      toFlush := toFlush[|ids|..];
      flushed := 0;
      assert old(toFlush) == ids + toFlush;
      assert forall i | 0 <= i < |toFlush| :: toFlush[i] == old(toFlush)[|ids| + i];
      forall id ensures id in byId <==> id in stored || id in toFlush {
        if id in ids {
          var j :| 0 <= j < |ids| && ids[j] == id;
          assert old(toFlush)[j] == id;
        }
        assert id in old(toFlush) <==> id in ids || id in toFlush;
      }
    }
  }

  lemma PrefixIn(all: seq<int>, ids: seq<int>)
    requires Increasing(all) && ids <= all
    ensures forall i | 0 <= i < |all| :: all[i] in ids <==> i < |ids|
    ensures forall id | id in ids :: id in all
  {
    forall i | 0 <= i < |all| ensures all[i] in ids <==> i < |ids| {
      if i < |ids| {
        assert ids[i] == all[i];
      }
    }
  }

  /** The search through all entries, in any order. */
  method Find(entries: map<int, Video>, data: Bytes) returns (id: Option<int>)
    ensures id.Some? ==> id.value in entries && entries[id.value].data == data
    ensures id.None? ==> forall k | k in entries :: entries[k].data != data
  {
    var ids := entries.Keys;
    while ids != {}
      invariant ids <= entries.Keys
      invariant forall k | k in entries && k !in ids :: entries[k].data != data
      decreases |ids|
    {
      IntSets.NonEmpty(ids);
      var k :| k in ids;
      if entries[k].data == data {
        return Some(k);
      }
      ids := ids - {k};
    }
    return None;
  }
}
