/** Dropping the oldest points (server/db/signal.rs:281-320). */
module SignalGc {
  import opened Base
  import opened IntSets
  import opened SignalPoint
  import opened SignalTimeline
  import opened SignalUpdate
  import opened SignalDebug

  /** `kept` is p0 without some of its earliest points. */
  ghost predicate KeptSuffix(p0: Points, kept: Points) {
    && (forall t | t in kept :: t in p0 && kept[t] == p0[t])
    && (forall t, u | t in p0 && t !in kept && u in kept :: t < u)
  }

  /** A point that holds its whole state as changes from nothing. */
  function Restarted(p: Point): (q: Point)
    requires ValidPoint(p)
    ensures ValidPoint(q) && Prev(q) == map[] && Changes(q) == After(p)
  {
    var data := Serialize(After(p));
    assert data[0..] == data && data[..0] == [];
    Point(data, 0)
  }

  function FirstPoint(points: Points): (t: int)
    requires points != map[]
    ensures IsMin(t, points.Keys)
  {
    MinOf(points.Keys)
  }

  function RestartFirst(kept: Points): Points
    requires ValidPoints(kept)
  {
    if kept == map[] then map[] else kept[FirstPoint(kept) := Restarted(kept[FirstPoint(kept)])]
  }

  /** What garbage collection keeps: at most `max` points, the state from the first of them on, and
      nothing known before it. */
  ghost predicate Collected(p0: Points, p1: Points, max: nat)
    requires ValidPoints(p0) && ValidPoints(p1)
  {
    && |p1| == Min(max, |p0|) && p1.Keys <= p0.Keys
    && (forall t, u | t in p0 && t !in p1 && u in p1 :: t < u)
    && (forall t, s :: StateBefore(p1, t, s) == if exists u :: u in p1 && u < t then StateBefore(p0, t, s) else 0)
  }

  lemma RestartChange(kept: Points, u: int, s: SignalId)
    requires ValidPoints(kept) && kept != map[] && ValidPoints(RestartFirst(kept))
    ensures var t0 := FirstPoint(kept);
            Change(RestartFirst(kept), u, s) ==
              if u == t0 then ChangeIn(After(kept[t0]), s) else Change(kept, u, s)
  {
  }

  /** Just after a first point that restarts an old one, the state is the old one's. */
  lemma RestartAt(p0: Points, p1: Points, t0: int, s: SignalId)
    requires ValidPoints(p0) && t0 in p0 && PrevOk(p0, t0)
    requires ValidPoints(p1) && t0 in p1 && (forall u | u in p1 :: t0 <= u) && Changes(p1[t0]) == After(p0[t0])
    ensures StateBefore(p1, t0 + 1, s) == StateBefore(p0, t0 + 1, s)
  {
    AfterPoint(p0, t0, s);
    BeforeLow(ChangesOf(p1), t0, s);
    BeforeStep(ChangesOf(p1), t0, s);
  }

  lemma GcState(p0: Points, kept: Points, t: int, s: SignalId)
    requires ValidPoints(p0) && KeptSuffix(p0, kept) && kept != map[] && ValidPoints(RestartFirst(kept))
    requires PrevOk(p0, FirstPoint(kept))
    ensures StateBefore(RestartFirst(kept), t, s) == if FirstPoint(kept) < t then StateBefore(p0, t, s) else 0
  {
    hide Before, ValidPoint, Restarted, PrevOk, ApplyChanges, Prev;
    var t0, p1 := FirstPoint(kept), RestartFirst(kept);
    assert Changes(p1[t0]) == After(kept[t0]);
    hide Changes;
    if t <= t0 {
      BeforeLow(ChangesOf(p1), t, s);
    } else {
      assert kept[t0] == p0[t0];
      RestartAt(p0, p1, t0, s);
      forall u | t0 + 1 <= u < t
        ensures ChangeAt(ChangesOf(p0), u, s) == ChangeAt(ChangesOf(p1), u, s)
      {
        RestartChange(kept, u, s);
        assert u in p0 ==> u in kept;
      }
      AgreeFrom(ChangesOf(p0), ChangesOf(p1), t0 + 1, t, s);
    }
  }

  lemma GcChained(p0: Points, kept: Points)
    requires Chained(p0) && KeptSuffix(p0, kept)
    ensures Chained(RestartFirst(kept))
    ensures forall t, s :: StateBefore(RestartFirst(kept), t, s) ==
              if exists u :: u in RestartFirst(kept) && u < t then StateBefore(p0, t, s) else 0
  {
    var p1 := RestartFirst(kept);
    if kept == map[] {
      forall t, s ensures StateBefore(p1, t, s) == 0 {
        BeforeLow(ChangesOf(p1), t, s);
      }
    } else {
      var t0 := FirstPoint(kept);
      forall t, s
        ensures StateBefore(p1, t, s) == if t0 < t then StateBefore(p0, t, s) else 0
      {
        GcState(p0, kept, t, s);
      }
      KeptPrevs(p0, kept);
      GcEnds(p0, kept);
    }
  }

  lemma KeptPrevs(p0: Points, kept: Points)
    requires Chained(p0) && KeptSuffix(p0, kept) && kept != map[] && ValidPoints(RestartFirst(kept))
    requires forall t, s :: StateBefore(RestartFirst(kept), t, s) == if FirstPoint(kept) < t then StateBefore(p0, t, s) else 0
    ensures FirstPoint(kept) in RestartFirst(kept) && forall u | u in RestartFirst(kept) :: FirstPoint(kept) <= u
    ensures forall t | t in RestartFirst(kept) :: PrevOk(RestartFirst(kept), t)
  {
    hide Before;
    forall t | t in RestartFirst(kept) ensures PrevOk(RestartFirst(kept), t) {
      assert PrevOk(p0, t);
    }
  }

  lemma GcEnds(p0: Points, kept: Points)
    requires ValidPoints(p0) && KeptSuffix(p0, kept) && kept != map[] && ValidPoints(RestartFirst(kept))
    requires EndsUnknown(ChangesOf(p0))
    requires forall t, s :: StateBefore(RestartFirst(kept), t, s) == if FirstPoint(kept) < t then StateBefore(p0, t, s) else 0
    ensures EndsUnknown(ChangesOf(RestartFirst(kept)))
  {
    var p1 := RestartFirst(kept);
    forall t, s | forall u | u in ChangesOf(p1) :: u < t
      ensures Before(ChangesOf(p1), t, s) == 0
    {
      assert FirstPoint(kept) in ChangesOf(p1);
      forall u | u in ChangesOf(p0) ensures u < t {
        assert u in kept ==> u in ChangesOf(p1);
      }
      assert Before(ChangesOf(p0), t, s) == 0;
      assert StateBefore(p1, t, s) == StateBefore(p0, t, s);
    }
  }

  lemma DropFirst(p0: Points, kept: Points)
    requires KeptSuffix(p0, kept) && kept != map[]
    ensures KeptSuffix(p0, kept - {FirstPoint(kept)}) && |kept - {FirstPoint(kept)}| == |kept| - 1
  {
    var t := FirstPoint(kept);
    assert (kept - {t}).Keys == kept.Keys - {t};
    assert |kept.Keys - {t}| == |kept.Keys| - 1;
  }

  lemma GcCovers(p0: Points, kept: Points, dirty: set<int>)
    requires ValidPoints(p0) && KeptSuffix(p0, kept)
    requires forall t | t in p0 && t !in kept :: t in dirty
    requires kept != map[] ==> FirstPoint(kept) in dirty
    ensures ValidPoints(RestartFirst(kept)) && DirtyCovers(p0, RestartFirst(kept), dirty)
    ensures Strict(p0) ==> Strict(RestartFirst(kept))
  {
    var p1 := RestartFirst(kept);
    forall t | t !in dirty
      ensures t in p0 <==> t in p1
      ensures t in p1 ==> p1[t] == p0[t]
    {
    }
  }

  lemma GcSilent(p0: Points, p1: Points, ids: set<SignalId>)
    requires ValidPoints(p0) && ValidPoints(p1) && Silent(p0, ids)
    requires forall t, s :: StateBefore(p1, t, s) == if exists u :: u in p1 && u < t then StateBefore(p0, t, s) else 0
    ensures Silent(p1, ids)
  {
  }

  /** What remains after dropping `p0` down to `kept`, and restarting the first point. */
  lemma Collecting(p0: Points, kept: Points, dirty: set<int>, max: nat, ids: set<SignalId>)
    requires Chained(p0) && Silent(p0, ids) && KeptSuffix(p0, kept) && |kept| == max <= |p0|
    requires forall t | t in p0 && t !in kept :: t in dirty
    requires kept != map[] ==> FirstPoint(kept) in dirty
    ensures var p1 := RestartFirst(kept);
            && Chained(p1) && Silent(p1, ids) && Collected(p0, p1, max)
            && DirtyCovers(p0, p1, dirty) && (DebugPasses(p0) ==> DebugPasses(p1))
  {
    hide DebugPasses, Before, PrevOk, Strict, EndsUnknown, DirtyCovers, Silent, ValidPoint, Restarted;
    var p1 := RestartFirst(kept);
    assert p1.Keys == kept.Keys;
    assert |p1| == |p1.Keys| == |kept.Keys| == |kept|;
    GcChained(p0, kept);
    GcCovers(p0, kept, dirty);
    GcSilent(p0, p1, ids);
    DebugKept(p0, p1);
  }

  /** `State::gc` past its early returns, without `gc_days`. */
  method CollectPoints(p0: Points, dirty0: set<int>, max: nat, ghost ids: set<SignalId>) returns (p1: Points, dirty1: set<int>)
    requires Chained(p0) && Silent(p0, ids) && max <= |p0|
    ensures Chained(p1) && Silent(p1, ids) && Collected(p0, p1, max)
    ensures dirty0 <= dirty1 && DirtyCovers(p0, p1, dirty1)
    ensures DebugPasses(p0) ==> DebugPasses(p1)
  {
    var kept := p0;
    dirty1 := dirty0;
    assert ValidPoints(p0);
    hide DebugPasses, Chained, Silent, DirtyCovers, Collected, Before;
    while |kept| > max
      invariant KeptSuffix(p0, kept) && max <= |kept|
      invariant dirty0 <= dirty1 && forall t | t in p0 && t !in kept :: t in dirty1
      decreases |kept|
    {
      var t := FirstPoint(kept);
      DropFirst(p0, kept);
      kept := kept - {t};
      dirty1 := dirty1 + {t};
    }
    if kept != map[] {
      dirty1 := dirty1 + {FirstPoint(kept)};
    }
    Collecting(p0, kept, dirty1, max, ids);
    p1 := RestartFirst(kept);
  }
}
