/** The edit list of a virtual .mp4 (server/src/mp4.rs:1411-1471; ISO/IEC 14496-12 section 8.6.5). */
module EditList {
  import opened Base

  /** One segment: where its frames actually start and which media range was asked for. */
  datatype Part = Part(actualStart: int, start: int, end: int)

  datatype Entry = Entry(duration: nat, mediaTime: nat)

  /** The source's sanity check: neither the skipped nor the kept time is negative. */
  predicate Sane(p: Part) {
    p.start - p.actualStart >= 0 && p.end - p.start >= 0
  }

  ghost predicate AllSane(parts: seq<Part>) {
    forall i | 0 <= i < |parts| :: Sane(parts[i])
  }

  /** The time units `[lo, lo + n)` of the track, in order. */
  ghost function Units(lo: int, n: nat): seq<int> {
    seq(n, i => lo + i)
  }

  lemma UnitsSplit(lo: int, n: nat, m: nat)
    ensures Units(lo, n + m) == Units(lo, n) + Units(lo + n, m)
  {
  }

  /** Where segment i starts on the track: before it come, back to back, the frames of the segments
      before, each from its actual start to its requested end. */
  ghost function TrackTime(parts: seq<Part>, i: nat): int
    requires i <= |parts|
  {
    if i == 0 then 0 else TrackTime(parts, i - 1) + (parts[i - 1].end - parts[i - 1].actualStart)
  }

  /** What the caller asked to see: the requested range of each segment, on the track's time. */
  ghost function Requested(parts: seq<Part>, i: nat): seq<int>
    requires i <= |parts| && AllSane(parts)
  {
    if i == 0 then []
    else
      var p := parts[i - 1];
      assert Sane(p);
      Requested(parts, i - 1) + Units(TrackTime(parts, i - 1) + (p.start - p.actualStart), p.end - p.start)
  }

  /** What a player shows for an edit list. */
  ghost function Played(entries: seq<Entry>): seq<int> {
    if entries == [] then []
    else Played(entries[..|entries| - 1]) + Units(entries[|entries| - 1].mediaTime, entries[|entries| - 1].duration)
  }

  /** With no edit list a player shows the whole track. */
  ghost function PlayedWhole(parts: seq<Part>): seq<int>
    requires AllSane(parts)
  {
    TrackLength(parts, |parts|);
    Units(0, TrackTime(parts, |parts|))
  }

  lemma {:induction false} TrackLength(parts: seq<Part>, i: nat)
    requires i <= |parts| && AllSane(parts)
    ensures 0 <= |Requested(parts, i)| <= TrackTime(parts, i)
    ensures |Requested(parts, i)| == TrackTime(parts, i) ==> forall j | 0 <= j < i :: parts[j].start == parts[j].actualStart
  {
    if i > 0 {
      assert Sane(parts[i - 1]);
      TrackLength(parts, i - 1);
    }
  }

  lemma PlayedMore(entries: seq<Entry>, e: Entry)
    ensures Played(entries + [e]) == Played(entries) + Units(e.mediaTime, e.duration)
  {
    assert (entries + [e])[..|entries|] == entries;
  }

  /** The `Default` entry. */
  function Nothing(): Entry {
    Entry(0, 0)
  }

  function Touches(e: Entry): nat {
    e.mediaTime + e.duration
  }

  /** Entries play something and leave a gap between each other. */
  ghost predicate Separate(entries: seq<Entry>) {
    && (forall i | 0 <= i < |entries| :: entries[i].duration > 0)
    && (forall i, j | 0 <= i < j < |entries| :: Touches(entries[i]) < entries[j].mediaTime)
  }

  /** The loop has arranged the first i segments: `flushed` and the entry still open play them. */
  ghost predicate Plays(parts: seq<Part>, i: nat, flushed: seq<Entry>, open: Entry)
    requires i <= |parts| && AllSane(parts)
  {
    Played(flushed) + Units(open.mediaTime, open.duration) == Requested(parts, i)
  }

  ghost predicate NoSkips(parts: seq<Part>, i: nat)
    requires i <= |parts|
  {
    forall j | 0 <= j < i :: parts[j].start == parts[j].actualStart
  }

  /** The entries so far are separate, end by `cur`, and only start at 0 alone if nothing was
      skipped. */
  ghost predicate Shaped(flushed: seq<Entry>, open: Entry, cur: int, noSkips: bool) {
    && Touches(open) <= cur
    && Separate(flushed) && (flushed != [] ==> Touches(flushed[|flushed| - 1]) < open.mediaTime)
    && (flushed == [] && open.mediaTime == 0 ==> open.duration == cur)
    && (noSkips ==> flushed == [] && open.mediaTime == 0)
  }

  function NextFlushed(flushed: seq<Entry>, open: Entry, at: nat): seq<Entry> {
    if Touches(open) != at && open.duration > 0 then flushed + [open] else flushed
  }

  function NextOpen(open: Entry, at: nat, keep: nat): Entry {
    if Touches(open) == at then open.(duration := open.duration + keep) else Entry(keep, at)
  }

  lemma ShapeStep(flushed: seq<Entry>, open: Entry, cur: nat, noSkips: bool, skip: nat, keep: nat)
    requires Shaped(flushed, open, cur, noSkips)
    ensures Shaped(NextFlushed(flushed, open, cur + skip), NextOpen(open, cur + skip, keep), cur + skip + keep, noSkips && skip == 0)
  {
    var at := cur + skip;
    var flushed1, open1 := NextFlushed(flushed, open, at), NextOpen(open, at, keep);
    if Touches(open) != at && open.duration > 0 {
      forall i, j | 0 <= i < j < |flushed1| ensures Touches(flushed1[i]) < flushed1[j].mediaTime {
        if j == |flushed| && i < |flushed| - 1 {
          assert Touches(flushed[i]) < flushed[|flushed| - 1].mediaTime;
        }
      }
    }
  }

  lemma PlayStep(shown: seq<int>, flushed: seq<Entry>, open: Entry, at: nat, keep: nat)
    requires Played(flushed) + Units(open.mediaTime, open.duration) == shown
    ensures var open1 := NextOpen(open, at, keep);
            Played(NextFlushed(flushed, open, at)) + Units(open1.mediaTime, open1.duration) == shown + Units(at, keep)
  {
    hide Units, Played;
    var last, next := Units(open.mediaTime, open.duration), Units(at, keep);
    if Touches(open) == at {
      UnitsSplit(open.mediaTime, open.duration, keep);
      assert Played(flushed) + (last + next) == shown + next;
    } else {
      PlayedMore(flushed, open);
      UnitsNone(open.mediaTime);
      assert Played(flushed) + [] == Played(flushed);
    }
  }

  lemma RequestedNext(parts: seq<Part>, i: nat)
    requires i < |parts| && AllSane(parts)
    ensures var p := parts[i];
            Sane(p) && Requested(parts, i + 1) == Requested(parts, i) + Units(TrackTime(parts, i) + (p.start - p.actualStart), p.end - p.start)
  {
    assert Sane(parts[i]);
  }

  lemma PlaysNext(parts: seq<Part>, i: nat, flushed: seq<Entry>, open: Entry, at: nat, keep: nat)
    requires i < |parts| && AllSane(parts) && Plays(parts, i, flushed, open)
    requires at == TrackTime(parts, i) + (parts[i].start - parts[i].actualStart) && keep == parts[i].end - parts[i].start
    ensures Plays(parts, i + 1, NextFlushed(flushed, open, at), NextOpen(open, at, keep))
  {
    hide Units, Played;
    RequestedNext(parts, i);
    PlayStep(Requested(parts, i), flushed, open, at, keep);
  }

  /** The requested ranges add up. */
  ghost function Asked(parts: seq<Part>, i: nat): int
    requires i <= |parts|
  {
    if i == 0 then 0 else Asked(parts, i - 1) + (parts[i - 1].end - parts[i - 1].start)
  }

  lemma {:induction false} RequestedLength(parts: seq<Part>, i: nat)
    requires i <= |parts| && AllSane(parts)
    ensures |Requested(parts, i)| == Asked(parts, i)
  {
    if i > 0 {
      assert Sane(parts[i - 1]);
      RequestedLength(parts, i - 1);
    }
  }

  lemma UnitsNone(lo: int)
    ensures Units(lo, 0) == []
  {
  }

  /** Adds the kept range at time `at`: to the open entry if it continues there. */
  method Extend(flushed: seq<Entry>, open: Entry, at: nat, keep: nat) returns (flushed1: seq<Entry>, open1: Entry)
    ensures flushed1 == NextFlushed(flushed, open, at) && open1 == NextOpen(open, at, keep)
  {
    flushed1, open1 := flushed, open;
    if open.duration + open.mediaTime == at {
      open1 := open.(duration := open.duration + keep);
    } else {
      if open.duration > 0 {
        flushed1 := flushed + [open];
      }
      open1 := Entry(keep, at);
    }
  }

  /** One segment: its kept range continues the open entry or starts a new one. */
  method AddEdit(ghost parts: seq<Part>, ghost i: nat, p: Part, flushed: seq<Entry>, open: Entry, cur: nat)
    returns (flushed1: seq<Entry>, open1: Entry, cur1: nat)
    requires i < |parts| && p == parts[i] && Sane(p) && Edited(parts, i, flushed, open, cur)
    ensures Edited(parts, i + 1, flushed1, open1, cur1)
  {
    var skip, keep := p.start - p.actualStart, p.end - p.start;
    EditsStep(parts, i, flushed, open, cur, skip, keep);
    hide Edited, NextFlushed, NextOpen;
    flushed1, open1 := Extend(flushed, open, cur + skip, keep);
    cur1 := cur + skip + keep;
  }

  ghost predicate Within(entries: seq<Entry>, time: int) {
    forall i | 0 <= i < |entries| :: Touches(entries[i]) <= time
  }

  lemma SeparateWithin(flushed: seq<Entry>, open: Entry, time: int)
    requires Shaped(flushed, open, time, false)
    ensures Within(flushed + [open], time)
  {
    var all := flushed + [open];
    forall i | 0 <= i < |all| ensures Touches(all[i]) <= time {
      if i < |flushed| - 1 {
        assert Touches(flushed[i]) < flushed[|flushed| - 1].mediaTime;
      }
    }
  }

  /** There is no edit list exactly when the whole track was asked for; otherwise it plays the
      requested ranges, merged where they touch. */
  ghost predicate EditsOk(parts: seq<Part>, edits: Option<seq<Entry>>) {
    && AllSane(parts)
    && (edits == None <==> Requested(parts, |parts|) == PlayedWhole(parts))
    && (edits.Some? ==>
          && edits.value != [] && Played(edits.value) == Requested(parts, |parts|)
          && Separate(edits.value[..|edits.value| - 1])
          && |edits.value| <= |parts| + 1 && Within(edits.value, TrackTime(parts, |parts|)))
  }

  /** `maybe_append_video_edts`, up to writing the box. */
  method VideoEdits(parts: seq<Part>) returns (r: Result<Option<seq<Entry>>>)
    ensures r.Ok? <==> AllSane(parts)
    ensures r.Ok? ==> EditsOk(parts, r.value)
  {
    var flushed: seq<Entry>, open, cur: nat := [], Nothing(), 0;
    EditsStart(parts);
    hide Edited, EditsOk, Nothing, Sane;
    for i := 0 to |parts|
      invariant Edited(parts, i, flushed, open, cur)
    {
      var p := parts[i];
      if !Sane(p) {
        return Err;
      }
      flushed, open, cur := AddEdit(parts, i, p, flushed, open, cur);
    }
    EditsEnd(parts, flushed, open, cur);
    if flushed == [] && open.mediaTime == 0 {
      return Ok(None);
    }
    return Ok(Some(flushed + [open]));
  }

  /** The loop of `VideoEdits` before segment i. */
  ghost predicate Edited(parts: seq<Part>, i: nat, flushed: seq<Entry>, open: Entry, cur: nat) {
    && |flushed| <= i <= |parts| && cur == TrackTime(parts, i)
    && (forall j | 0 <= j < i :: Sane(parts[j]))
    && Shaped(flushed, open, cur, NoSkips(parts, i))
    && (AllSane(parts) ==> Plays(parts, i, flushed, open))
  }

  lemma EditsStep(parts: seq<Part>, i: nat, flushed: seq<Entry>, open: Entry, cur: nat, skip: nat, keep: nat)
    requires i < |parts| && Edited(parts, i, flushed, open, cur)
    requires skip == parts[i].start - parts[i].actualStart && keep == parts[i].end - parts[i].start
    ensures var at := cur + skip;
            Edited(parts, i + 1, NextFlushed(flushed, open, at), NextOpen(open, at, keep), at + keep)
  {
    hide Plays, Shaped;
    if AllSane(parts) {
      PlaysNext(parts, i, flushed, open, cur + skip, keep);
    }
    ShapeStep(flushed, open, cur, NoSkips(parts, i), skip, keep);
  }

  lemma EditsStart(parts: seq<Part>)
    ensures Edited(parts, 0, [], Nothing(), 0)
  {
    UnitsNone(0);
    assert Played([]) + [] == [];
  }

  lemma EditsEnd(parts: seq<Part>, flushed: seq<Entry>, open: Entry, cur: nat)
    requires Edited(parts, |parts|, flushed, open, cur)
    ensures AllSane(parts)
    ensures EditsOk(parts, if flushed == [] && open.mediaTime == 0 then None else Some(flushed + [open]))
  {
    PlayedMore(flushed, open);
    TrackLength(parts, |parts|);
    assert (flushed + [open])[..|flushed|] == flushed;
    SeparateWithin(flushed, open, cur);
    if flushed == [] && open.mediaTime == 0 {
      assert Played(flushed) + Units(0, cur) == Units(0, cur);
    }
  }
}
