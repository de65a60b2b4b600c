/** What an interval update does to the points of the signal store (server/db/signal.rs): the end,
    start and middle steps as relations between stores, and what they make together. */
module SignalUpdate {
  import opened Base
  import opened IntSets
  import opened Days
  import opened SignalPoint
  import opened SignalTimeline

  type Points = map<int, Point>

  /** Each signal's day index; `None` once adjusting it has panicked. */
  type DayIndexes = map<SignalId, Option<SignalDays>>

  ghost predicate ValidPoints(points: Points) {
    forall t | t in points :: ValidPoint(points[t])
  }

  ghost function ChangesOf(points: Points): ChangeMap
    requires ValidPoints(points)
  {
    map t | t in points :: Changes(points[t])
  }

  /** The state just before t, as the changes give it. */
  ghost function StateBefore(points: Points, t: int, s: SignalId): StateNo
    requires ValidPoints(points)
  {
    Before(ChangesOf(points), t, s)
  }

  /** The previous state kept at point t is the fold of all earlier changes. An absent signal reads
      as 0. */
  ghost predicate PrevOk(points: Points, t: int)
    requires ValidPoints(points) && t in points
  {
    forall s :: Get(Prev(points[t]), s) == StateBefore(points, t, s)
  }

  /** The store's invariant: every point's previous state is right and the far future is unknown. */
  ghost predicate Chained(points: Points) {
    && ValidPoints(points)
    && (forall t | t in points :: PrevOk(points, t))
    && EndsUnknown(ChangesOf(points))
  }

  ghost function Change(points: Points, t: int, s: SignalId): Option<StateNo>
    requires ValidPoints(points)
  {
    ChangeAt(ChangesOf(points), t, s)
  }

  lemma AfterPoint(points: Points, t: int, s: SignalId)
    requires ValidPoints(points) && t in points && PrevOk(points, t)
    ensures Get(After(points[t]), s) == StateBefore(points, t + 1, s)
  {
    var c := ChangesOf(points);
    var prev, changes := Prev(points[t]), Changes(points[t]);
    GetApplied(prev, changes, s);
    BeforeStep(c, t, s);
    assert ChangeAt(c, t, s) == if s in changes then Some(changes[s]) else None;
    assert Get(prev, s) == Before(c, t, s);
  }

  /** With no point in between, the state after a point is the state before a later time. */
  lemma AfterLastAt(points: Points, t: int, u: int, s: SignalId)
    requires ValidPoints(points) && t in points && PrevOk(points, t) && t < u
    requires forall w | w in points :: w <= t || u <= w
    ensures Get(After(points[t]), s) == StateBefore(points, u, s)
  {
    assert StateBefore(points, t + 1, s) == StateBefore(points, u, s) by {
      BeforeConstant(ChangesOf(points), t + 1, u, s);
    }
    AfterPoint(points, t, s);
  }

  lemma AfterLast(points: Points, t: int, u: int)
    requires ValidPoints(points) && t in points && PrevOk(points, t) && t < u
    requires forall w | w in points :: w <= t || u <= w
    ensures forall s :: Get(After(points[t]), s) == StateBefore(points, u, s)
  {
    forall s { AfterLastAt(points, t, u, s); }
  }

  lemma BeforeAll(points: Points, u: int)
    requires ValidPoints(points)
    requires forall w | w in points :: u <= w
    ensures forall s :: StateBefore(points, u, s) == 0
  {
    forall s ensures StateBefore(points, u, s) == 0 {
      BeforeLow(ChangesOf(points), u, s);
    }
  }

  // -- what each of the three steps of an update does --------------------------------------

  ghost predicate SameExcept(p0: Points, p1: Points, t: int) {
    forall u | u != t :: (u in p0 <==> u in p1) && (u in p0 ==> p0[u] == p1[u])
  }

  /** The end point restores, for the updated signals, the state the store had after `end`. */
  ghost predicate EndAt(p0: Points, p1: Points, end: int, upd: SigMap, s: SignalId)
    requires ValidPoints(p0) && ValidPoints(p1)
  {
    && (if s in upd then
          match Change(p1, end, s)
          case Some(v) => v == StateBefore(p0, end + 1, s)
          case None => upd[s] == StateBefore(p0, end + 1, s)
        else Change(p1, end, s) == Change(p0, end, s))
    && (end in p1 ==> Get(Prev(p1[end]), s) == if s in upd then upd[s] else StateBefore(p0, end, s))
  }

  ghost predicate EndDone(p0: Points, p1: Points, end: int, upd: SigMap) {
    && ValidPoints(p0) && ValidPoints(p1) && SameExcept(p0, p1, end)
    && forall s :: EndAt(p0, p1, end, upd, s)
  }

  /** The start point moves the updated signals to their new states. */
  ghost predicate StartAt(p1: Points, p2: Points, start: int, upd: SigMap, s: SignalId)
    requires ValidPoints(p1) && ValidPoints(p2)
  {
    && (if s in upd then
          match Change(p2, start, s)
          case Some(v) => v == upd[s]
          case None => upd[s] == StateBefore(p1, start, s)
        else Change(p2, start, s) == Change(p1, start, s))
    && (start in p2 ==> Get(Prev(p2[start]), s) == StateBefore(p1, start, s))
  }

  ghost predicate StartDone(p1: Points, p2: Points, start: int, upd: SigMap) {
    && ValidPoints(p1) && ValidPoints(p2) && SameExcept(p1, p2, start)
    && forall s :: StartAt(p1, p2, start, upd, s)
  }

  /** A point inside the interval neither changes the updated signals nor remembers other states
      for them. */
  ghost predicate MiddleAt(p2: Points, p3: Points, upd: SigMap, t: int)
    requires ValidPoints(p2) && ValidPoints(p3)
  {
    && (t in p3 ==> t in p2)
    && (forall s :: Change(p3, t, s) == if s in upd then None else Change(p2, t, s))
    && (t in p3 ==> forall s :: Get(Prev(p3[t]), s) == if s in upd then upd[s] else Get(Prev(p2[t]), s))
  }

  ghost predicate SameAt(p0: Points, p1: Points, t: int) {
    (t in p0 <==> t in p1) && (t in p0 ==> p0[t] == p1[t])
  }

  /** A point of the interval not in `todo` is patched, everything else is untouched. */
  ghost predicate Visited(p2: Points, p3: Points, start: int, end: int, upd: SigMap, todo: set<int>, t: int)
    requires ValidPoints(p2) && ValidPoints(p3)
  {
    if start < t < end && t !in todo then MiddleAt(p2, p3, upd, t) else SameAt(p2, p3, t)
  }

  ghost predicate MiddleUpTo(p2: Points, p3: Points, start: int, end: int, upd: SigMap, todo: set<int>) {
    && ValidPoints(p2) && ValidPoints(p3)
    && (forall t :: Visited(p2, p3, start, end, upd, todo, t))
  }

  // -- the three steps together ------------------------------------------------------------

  lemma PatchAtEnd(p0: Points, p1: Points, start: int, end: int, upd: SigMap, s: SignalId)
    requires start < end && EndDone(p0, p1, end, upd)
    ensures PatchStep(ChangesOf(p0), ChangesOf(p1), start, end, upd, end, s)
  {
    assert EndAt(p0, p1, end, upd, s);
    BeforeStep(ChangesOf(p0), end, s);
    assert Change(p1, end, s) == ChangeAt(ChangesOf(p1), end, s);
    assert Change(p0, end, s) == ChangeAt(ChangesOf(p0), end, s);
  }

  lemma PatchAtStart(p0: Points, p1: Points, p2: Points, start: int, end: int, upd: SigMap, s: SignalId)
    requires start < end && EndDone(p0, p1, end, upd) && StartDone(p1, p2, start, upd)
    ensures PatchStep(ChangesOf(p0), ChangesOf(p2), start, end, upd, start, s)
  {
    assert StartAt(p1, p2, start, upd, s);
    BeforeStep(ChangesOf(p0), start, s);
    BeforeAgree(ChangesOf(p0), ChangesOf(p1), start, s);
    assert Change(p2, start, s) == ChangeAt(ChangesOf(p2), start, s);
    assert Change(p1, start, s) == ChangeAt(ChangesOf(p0), start, s);
  }

  lemma StepsPatch(p0: Points, p1: Points, p2: Points, p3: Points, start: int, end: int, upd: SigMap, t: int, s: SignalId)
    requires start < end && EndDone(p0, p1, end, upd) && StartDone(p1, p2, start, upd) && MiddleUpTo(p2, p3, start, end, upd, {})
    ensures PatchStep(ChangesOf(p0), ChangesOf(p3), start, end, upd, t, s)
  {
    var c0, c1, c2, c3 := ChangesOf(p0), ChangesOf(p1), ChangesOf(p2), ChangesOf(p3);
    assert Visited(p2, p3, start, end, upd, {}, t);
    if t == end {
      PatchAtEnd(p0, p1, start, end, upd, s);
      assert ChangeAt(c3, t, s) == ChangeAt(c1, t, s);
    } else if t == start {
      PatchAtStart(p0, p1, p2, start, end, upd, s);
      assert ChangeAt(c3, t, s) == ChangeAt(c2, t, s);
    } else {
      BeforeStep(c0, t, s);
      assert ChangeAt(c2, t, s) == ChangeAt(c0, t, s);
      assert Change(p3, t, s) == ChangeAt(c3, t, s) && Change(p2, t, s) == ChangeAt(c2, t, s);
    }
  }

  /** An interval update: inside the interval the given signals take the given states, every other
      signal and time is unchanged, and the invariant holds again. */
  lemma StepsUpdate(p0: Points, p1: Points, p2: Points, p3: Points, start: int, end: int, upd: SigMap)
    requires Chained(p0)
    requires start < end && EndDone(p0, p1, end, upd) && StartDone(p1, p2, start, upd) && MiddleUpTo(p2, p3, start, end, upd, {})
    ensures Chained(p3)
    ensures forall t, s :: StateBefore(p3, t, s) == Desired(ChangesOf(p0), start, end, upd, t, s)
  {
    forall t, s
      ensures StateBefore(p3, t, s) == Desired(ChangesOf(p0), start, end, upd, t, s)
    {
      forall u ensures PatchStep(ChangesOf(p0), ChangesOf(p3), start, end, upd, u, s) {
        StepsPatch(p0, p1, p2, p3, start, end, upd, u, s);
      }
      PatchDenotes(ChangesOf(p0), ChangesOf(p3), start, end, upd, t, s);
    }
    forall t | t in p3
      ensures PrevOk(p3, t)
    {
      StepsPrev(p0, p1, p2, p3, start, end, upd, t);
    }
    StepsEnd(p0, p3, start, end, upd);
  }

  lemma StepsPrev(p0: Points, p1: Points, p2: Points, p3: Points, start: int, end: int, upd: SigMap, t: int)
    requires Chained(p0) && t in p3
    requires start < end && EndDone(p0, p1, end, upd) && StartDone(p1, p2, start, upd) && MiddleUpTo(p2, p3, start, end, upd, {})
    ensures forall s :: Get(Prev(p3[t]), s) == Desired(ChangesOf(p0), start, end, upd, t, s)
  {
    assert Visited(p2, p3, start, end, upd, {}, t);
    forall s
      ensures Get(Prev(p3[t]), s) == Desired(ChangesOf(p0), start, end, upd, t, s)
    {
      if t == start {
        assert StartAt(p1, p2, start, upd, s);
        BeforeAgree(ChangesOf(p0), ChangesOf(p1), start, s);
      } else if t == end {
        assert EndAt(p0, p1, end, upd, s) && p3[t] == p2[t] == p1[t];
      } else {
        assert t in p0 && p0[t] == p1[t] == p2[t] && PrevOk(p0, t);
      }
    }
  }

  lemma StepsEnd(p0: Points, p3: Points, start: int, end: int, upd: SigMap)
    requires Chained(p0) && ValidPoints(p3)
    requires forall t, s :: StateBefore(p3, t, s) == Desired(ChangesOf(p0), start, end, upd, t, s)
    ensures EndsUnknown(ChangesOf(p3))
  {
    var c0, c3 := ChangesOf(p0), ChangesOf(p3);
    forall t, s | forall u | u in c3 :: u < t
      ensures Before(c3, t, s) == 0
    {
      var hi := MaxOf(c0.Keys + {t, end + 1}) + 1;
      assert t in c0.Keys + {t, end + 1} && end + 1 in c0.Keys + {t, end + 1};
      forall u | u in c0 ensures u < hi {
        assert u in c0.Keys + {t, end + 1};
      }
      assert Before(c0, hi, s) == 0;
      BeforeConstant(c3, t, hi, s);
      assert StateBefore(p3, hi, s) == Desired(c0, start, end, upd, hi, s);
    }
  }

  // -- write-behind ------------------------------------------------------------------------

  /** Every difference from p0 to p1 is at a dirty time, except that a point without changes may
      silently go. */
  ghost predicate DirtyCovers(p0: Points, p1: Points, dirty: set<int>)
    requires ValidPoints(p0) && ValidPoints(p1)
  {
    forall t | t !in dirty ::
      && (t in p1 ==> t in p0 && Changes(p0[t]) == Changes(p1[t]))
      && (t in p0 && t !in p1 ==> Changes(p0[t]) == map[])
  }

  // -- the strict form of the invariant ----------------------------------------------------

  ghost predicate NoZeros(m: SigMap) {
    forall s | s in m :: m[s] != 0
  }

  /** No previous state holds an explicit zero: folding changes removes a signal that goes to 0.
      With `Chained` this is what the debug build checks (`SignalDebug.DebugExactly`). */
  ghost predicate Strict(points: Points)
    requires ValidPoints(points)
  {
    forall t | t in points :: NoZeros(Prev(points[t]))
  }

  // -- requests ----------------------------------------------------------------------------

  /** An update that passed validation and is not empty. */
  datatype Request = Request(start: int, end: int, signals: seq<SignalId>, states: seq<StateNo>)

  /** Signal ids start at 1. */
  ghost predicate Passed(r: Request) {
    && r.start < r.end && |r.signals| == |r.states| && StrictlyIncreasing(r.signals)
    && (forall s | s in r.signals :: s >= 1)
  }

  ghost predicate ValidRequest(r: Request, ids: set<SignalId>) {
    Passed(r) && forall s | s in r.signals :: s in ids
  }

  ghost function Upd(r: Request): SigMap
    requires |r.signals| == |r.states|
  {
    Zip(r.signals, r.states)
  }

  /** Every signal set to 0, unknown, was known just before the end. */
  ghost predicate ZeroesKnown(r: Request, p0: Points)
    requires ValidPoints(p0) && |r.signals| == |r.states|
  {
    forall s | s in r.signals && Upd(r)[s] == 0 :: StateBefore(p0, r.end, s) != 0
  }

  // -- the end point's maps ----------------------------------------------------------------

  /** One signal of `update_signals_end_maps`: `prev` takes the new state, `changes` undoes it. */
  function EndMap(prev: SigMap, changes: SigMap, s: SignalId, state: StateNo): (SigMap, SigMap) {
    if s !in prev then (prev[s := state], changes[s := 0])
    else if state == 0 then (prev - {s}, changes[s := prev[s]])
    else if prev[s] != state then (prev[s := state], changes[s := prev[s]])
    else (prev, changes)
  }

  ghost predicate EndMapsDone(prev0: SigMap, upd: SigMap, prev: SigMap, changes: SigMap) {
    && (forall s | s !in upd :: EndUntouched(prev0, prev, changes, s))
    && (forall s | s in upd :: EndMapped(prev0, upd[s], prev, changes, s))
  }

  ghost predicate EndUntouched(prev0: SigMap, prev: SigMap, changes: SigMap, s: SignalId) {
    s !in changes && (s in prev <==> s in prev0) && Get(prev, s) == Get(prev0, s)
  }

  /** An updated signal; an explicit 0 is left behind exactly when an absent signal is set to 0. */
  ghost predicate EndMapped(prev0: SigMap, state: StateNo, prev: SigMap, changes: SigMap, s: SignalId) {
    && Get(prev, s) == state
    && (if s in changes then changes[s] == Get(prev0, s) else state == Get(prev0, s))
    && (s !in prev0 ==> s in changes)
    && (s in prev && prev[s] == 0 <==> state == 0 && s !in prev0)
  }

  lemma EndMapStep(prev0: SigMap, upd: SigMap, prev: SigMap, changes: SigMap, s: SignalId, state: StateNo)
    requires EndMapsDone(prev0, upd, prev, changes) && s !in upd
    ensures var (p, c) := EndMap(prev, changes, s, state); EndMapsDone(prev0, upd[s := state], p, c)
  {
    hide EndMap, EndMapped, EndUntouched;
    var (p, c) := EndMap(prev, changes, s, state);
    assert EndUntouched(prev0, prev, changes, s);
    EndMapNew(prev0, prev, changes, s, state);
    forall r | r in upd ensures EndMapped(prev0, upd[r], p, c, r) {
      assert EndMapped(prev0, upd[r], prev, changes, r);
      EndMapOld(prev0, prev, changes, s, state, r, upd[r]);
    }
    forall r | r !in upd && r != s ensures EndUntouched(prev0, p, c, r) {
      assert EndUntouched(prev0, prev, changes, r);
      EndMapOther(prev0, prev, changes, s, state, r);
    }
  }

  lemma EndMapOther(prev0: SigMap, prev: SigMap, changes: SigMap, s: SignalId, state: StateNo, r: SignalId)
    requires EndUntouched(prev0, prev, changes, r) && r != s
    ensures var (p, c) := EndMap(prev, changes, s, state); EndUntouched(prev0, p, c, r)
  {
  }

  lemma EndMapNew(prev0: SigMap, prev: SigMap, changes: SigMap, s: SignalId, state: StateNo)
    requires EndUntouched(prev0, prev, changes, s)
    ensures var (p, c) := EndMap(prev, changes, s, state); EndMapped(prev0, state, p, c, s)
  {
  }

  lemma EndMapOld(prev0: SigMap, prev: SigMap, changes: SigMap, s: SignalId, state: StateNo, r: SignalId, v: StateNo)
    requires EndMapped(prev0, v, prev, changes, r) && r != s
    ensures var (p, c) := EndMap(prev, changes, s, state); EndMapped(prev0, v, p, c, r)
  {
  }

  // -- day index steps ---------------------------------------------------------------------

  /** One call of `adjust` on a day index that may have panicked. */
  ghost predicate DayStep(cal: Calendar, d: Option<SignalDays>, lo: int, hi: int, from: StateNo, to: StateNo, d2: Option<SignalDays>) {
    match d
    case None => d2 == None
    case Some(m) =>
      && (d2.Some? <==> Enough(cal, m, lo, hi, from as int, to as int))
      && (d2.Some? ==> Adjusted(cal, m, lo, hi, from as int, to as int, d2.value))
  }

  ghost predicate DaysDone(cal: Calendar, d0: DayIndexes, d1: DayIndexes,
                           upd: SigMap, lo: int, hi: int, prev0: SigMap) {
    && d1.Keys == d0.Keys
    && forall s | s in d0 :: DayDone(cal, d0, d1, upd, lo, hi, prev0, s)
  }

  ghost predicate DayDone(cal: Calendar, d0: DayIndexes, d1: DayIndexes, upd: SigMap, lo: int, hi: int, prev0: SigMap, s: SignalId)
    requires s in d0 && s in d1
  {
    if s in upd then DayStep(cal, d0[s], lo, hi, Get(prev0, s), upd[s], d1[s]) else d1[s] == d0[s]
  }

  // -- the end point -----------------------------------------------------------------------

  /** The end point that `update_signals_end` writes, if it writes one. */
  function EndPoint(prev: SigMap, undo: SigMap, existing: SigMap): (p: Point)
    ensures ValidPoint(p) && Prev(p) == prev && Changes(p) == undo + existing
  {
    NewPoint(prev, Serialize(undo + existing))
  }

  lemma EndValues(prev0: SigMap, existing: SigMap, upd: SigMap, prev: SigMap, undo: SigMap, s: SignalId, after: StateNo)
    requires EndMapsDone(prev0, upd, prev, undo)
    requires after == Applied(Get(prev0, s), ChangeIn(existing, s))
    ensures Get(prev, s) == if s in upd then upd[s] else Get(prev0, s)
    ensures s !in upd ==> ChangeIn(undo + existing, s) == ChangeIn(existing, s)
    ensures s in upd ==> match ChangeIn(undo + existing, s) case Some(v) => v == after case None => upd[s] == after
  {
    if s in upd {
      assert EndMapped(prev0, upd[s], prev, undo, s);
    } else {
      assert EndUntouched(prev0, prev, undo, s);
    }
  }

  lemma EndWritten(p0: Points, end: int, p: Point, prev0: SigMap, existing: SigMap, upd: SigMap, prev: SigMap, undo: SigMap, s: SignalId)
    requires ValidPoints(p0) && EndMapsDone(prev0, upd, prev, undo)
    requires Get(prev0, s) == StateBefore(p0, end, s)
    requires existing == if end in p0 then Changes(p0[end]) else map[]
    requires ValidPoint(p) && Prev(p) == prev && Changes(p) == undo + existing
    ensures EndAt(p0, p0[end := p], end, upd, s)
  {
    var after := StateBefore(p0, end + 1, s);
    assert after == Applied(Get(prev0, s), ChangeIn(existing, s)) by {
      BeforeStep(ChangesOf(p0), end, s);
    }
    assert Change(p0, end, s) == ChangeIn(existing, s);
    assert Change(p0[end := p], end, s) == ChangeIn(undo + existing, s);
    EndValues(prev0, existing, upd, prev, undo, s, after);
  }

  ghost function ChangeIn(m: SigMap, s: SignalId): Option<StateNo> {
    if s in m then Some(m[s]) else None
  }

  lemma EndSkipped(p0: Points, end: int, prev0: SigMap, upd: SigMap, prev: SigMap, s: SignalId)
    requires ValidPoints(p0) && EndMapsDone(prev0, upd, prev, map[])
    requires Get(prev0, s) == StateBefore(p0, end, s)
    requires end in p0 ==> Prev(p0[end]) == prev0
    ensures EndAt(p0, p0, end, upd, s)
  {
    BeforeStep(ChangesOf(p0), end, s);
    if s in upd {
      assert EndMapped(prev0, upd[s], prev, map[], s);
    } else {
      assert EndUntouched(prev0, prev, map[], s);
    }
  }

  /** Explicit zeros: none appear unless an absent signal is set to 0. */
  lemma EndZeros(prev0: SigMap, upd: SigMap, prev: SigMap, undo: SigMap)
    requires EndMapsDone(prev0, upd, prev, undo) && NoZeros(prev0)
    ensures NoZeros(prev) <==> forall s | s in upd && upd[s] == 0 :: Get(prev0, s) != 0
    ensures undo == map[] ==> NoZeros(prev)
  {
    forall s | s in upd
      ensures s in prev && prev[s] == 0 <==> upd[s] == 0 && s !in prev0
      ensures s !in prev0 ==> s in undo
      ensures s in prev0 <==> Get(prev0, s) != 0
      ensures upd[s] == 0 && Get(prev0, s) == 0 ==> s in prev && prev[s] == 0
    {
      assert EndMapped(prev0, upd[s], prev, undo, s);
    }
    forall s | s in prev && s !in upd
      ensures prev[s] != 0
    {
      assert EndUntouched(prev0, prev, undo, s);
    }
  }

  /** The last point in `[start, end)`, or `start`: where the state before `end` began. */
  function LastPoint(points: Points, start: int, end: int): (lo: int)
    requires start < end
    ensures start <= lo < end && (lo == start || lo in points)
    ensures forall t | t in points && lo < t < end :: false
  {
    var inside := set t | t in points && start <= t < end;
    assert forall t | t in points && start <= t < end :: t in inside;
    if inside == {} then start else MaxOf(inside)
  }

  /** A signal the store does not know is unknown at all times. */
  ghost predicate Silent(points: Points, ids: set<SignalId>)
    requires ValidPoints(points)
  {
    forall t, s | s !in ids :: StateBefore(points, t, s) == 0
  }

  lemma DaysDoneStep(cal: Calendar, d0: DayIndexes, d1: DayIndexes, upd: SigMap, lo: int, hi: int, prev0: SigMap,
                     s: SignalId, state: StateNo, d2: DayIndexes)
    requires DaysDone(cal, d0, d1, upd, lo, hi, prev0) && s in d0 && s !in upd
    requires d2.Keys == d1.Keys && d2 == d1[s := d2[s]]
    requires DayStep(cal, d1[s], lo, hi, Get(prev0, s), state, d2[s])
    ensures DaysDone(cal, d0, d2, upd[s := state], lo, hi, prev0)
  {
    assert DayDone(cal, d0, d1, upd, lo, hi, prev0, s);
    forall r | r in d0 ensures DayDone(cal, d0, d2, upd[s := state], lo, hi, prev0, r) {
      assert DayDone(cal, d0, d1, upd, lo, hi, prev0, r);
    }
  }

  /** Day steps from the state just before `hi`. */
  ghost predicate EndDays(cal: Calendar, d0: DayIndexes, d1: DayIndexes,
                            upd: SigMap, lo: int, hi: int, p0: Points)
    requires ValidPoints(p0)
  {
    && d1.Keys == d0.Keys
    && forall s | s in d0 :: if s in upd then DayStep(cal, d0[s], lo, hi, StateBefore(p0, hi, s), upd[s], d1[s]) else d1[s] == d0[s]
  }

  lemma EndDaysFrom(cal: Calendar, d0: DayIndexes, d1: DayIndexes,
                    upd: SigMap, lo: int, hi: int, prev0: SigMap, p0: Points)
    requires ValidPoints(p0) && DaysDone(cal, d0, d1, upd, lo, hi, prev0)
    requires forall s :: Get(prev0, s) == StateBefore(p0, hi, s)
    ensures EndDays(cal, d0, d1, upd, lo, hi, p0)
  {
    forall s | s in d0
      ensures if s in upd then DayStep(cal, d0[s], lo, hi, StateBefore(p0, hi, s), upd[s], d1[s]) else d1[s] == d0[s]
    {
      assert DayDone(cal, d0, d1, upd, lo, hi, prev0, s);
    }
  }

  ghost predicate StrictBefore(points: Points, t: int)
    requires ValidPoints(points)
  {
    forall u | u in points && u <= t :: NoZeros(Prev(points[u]))
  }

  /** The end point stays strict exactly when no updated signal goes to 0 from 0. */
  ghost predicate EndStrict(p0: Points, p1: Points, end: int, upd: SigMap)
    requires ValidPoints(p0) && ValidPoints(p1)
  {
    (end in p1 ==> NoZeros(Prev(p1[end]))) <==> forall s | s in upd && upd[s] == 0 :: StateBefore(p0, end, s) != 0
  }

  /** How `update_signals_end` leaves the points, given the maps it computed. */
  function EndPoints(p0: Points, end: int, prev: SigMap, undo: SigMap): (p1: Points)
    requires ValidPoints(p0)
    ensures ValidPoints(p1)
  {
    if undo == map[] then p0
    else p0[end := EndPoint(prev, undo, if end in p0 then Changes(p0[end]) else map[])]
  }

  /** Every point up to t keeps the right previous state. */
  ghost predicate PrevUpTo(points: Points, t: int) {
    ValidPoints(points) && forall u | u in points && u <= t :: PrevOk(points, u)
  }

  /** The state just before t: kept by the point at t, or else left by the last point before it. */
  function PriorState(points: Points, t: int): (m: SigMap)
    requires PrevUpTo(points, t)
    ensures forall s :: Get(m, s) == StateBefore(points, t, s)
    ensures t in points ==> m == Prev(points[t])
    ensures StrictBefore(points, t) ==> NoZeros(m)
  {
    var upto := set u | u in points && u <= t;
    assert forall u | u in points && u <= t :: u in upto;
    if upto == {} then
      BeforeAll(points, t);
      map[]
    else if MaxOf(upto) == t then
      assert PrevOk(points, t);
      Prev(points[t])
    else
      AfterLast(points, MaxOf(upto), t);
      LastStrict(points, MaxOf(upto), t);
      After(points[MaxOf(upto)])
  }

  lemma LastStrict(points: Points, t: int, u: int)
    requires ValidPoints(points) && t in points && t < u
    ensures StrictBefore(points, u) ==> NoZeros(After(points[t]))
  {
    if StrictBefore(points, u) {
      assert NoZeros(Prev(points[t]));
      forall s | s in After(points[t]) ensures After(points[t])[s] != 0 {
        GetApplied(Prev(points[t]), Changes(points[t]), s);
      }
    }
  }

  /** What `update_signals_end` makes of the points, the dirty set and the strict form. */
  ghost predicate EndSpec(p0: Points, d0: set<int>, p1: Points, d1: set<int>, end: int, upd: SigMap) {
    && EndDone(p0, p1, end, upd)
    && d0 <= d1 && DirtyCovers(p0, p1, d1)
    && (StrictBefore(p0, end) ==> EndStrict(p0, p1, end, upd))
  }

  lemma EndOutcome(p0: Points, end: int, prev0: SigMap, upd: SigMap, prev: SigMap, undo: SigMap)
    requires ValidPoints(p0) && EndMapsDone(prev0, upd, prev, undo)
    requires forall s :: Get(prev0, s) == StateBefore(p0, end, s)
    requires end in p0 ==> Prev(p0[end]) == prev0
    ensures EndDone(p0, EndPoints(p0, end, prev, undo), end, upd)
  {
    var p1 := EndPoints(p0, end, prev, undo);
    forall s
      ensures EndAt(p0, p1, end, upd, s)
    {
      if undo == map[] {
        EndSkipped(p0, end, prev0, upd, prev, s);
      } else {
        var existing := if end in p0 then Changes(p0[end]) else map[];
        EndWritten(p0, end, EndPoint(prev, undo, existing), prev0, existing, upd, prev, undo, s);
      }
    }
  }

  lemma EndBookkeeping(p0: Points, d0: set<int>, end: int, prev0: SigMap, upd: SigMap, prev: SigMap, undo: SigMap)
    requires ValidPoints(p0) && EndMapsDone(prev0, upd, prev, undo)
    requires forall s :: Get(prev0, s) == StateBefore(p0, end, s)
    requires end in p0 ==> Prev(p0[end]) == prev0
    requires StrictBefore(p0, end) ==> NoZeros(prev0)
    ensures EndSpec(p0, d0, EndPoints(p0, end, prev, undo), if undo == map[] then d0 else d0 + {end}, end, upd)
  {
    hide EndMapsDone, EndAt, Before, ValidPoint, ApplyChanges, Serialize;
    EndOutcome(p0, end, prev0, upd, prev, undo);
    EndCovers(p0, d0, end, prev, undo);
    if StrictBefore(p0, end) {
      EndZeros(prev0, upd, prev, undo);
      assert undo == map[] && end in p0 ==> NoZeros(Prev(p0[end]));
    }
  }

  lemma EndCovers(p0: Points, d0: set<int>, end: int, prev: SigMap, undo: SigMap)
    requires ValidPoints(p0)
    ensures DirtyCovers(p0, EndPoints(p0, end, prev, undo), if undo == map[] then d0 else d0 + {end})
  {
    hide EndPoint, Changes;
    var p1 := EndPoints(p0, end, prev, undo);
    assert forall t | t != end :: (t in p1 <==> t in p0) && (t in p0 ==> p1[t] == p0[t]);
  }

  // -- the start point ---------------------------------------------------------------------

  /** One signal of `update_signals_start` at an existing point. The vacant case of the source
      tests the signal number, which is never 0, so it always inserts. */
  function StartMap(prev: SigMap, changes: SigMap, s: SignalId, state: StateNo): SigMap {
    if s in changes then
      if changes[s] == state then changes
      else if state == Get(prev, s) then changes - {s}
      else changes[s := state]
    else if s != 0 then changes[s := state]
    else changes
  }

  ghost predicate StartMapped(prev: SigMap, state: StateNo, changes: SigMap, s: SignalId) {
    if s in changes then changes[s] == state else state == Get(prev, s)
  }

  ghost predicate StartMapsDone(prev: SigMap, changes0: SigMap, upd: SigMap, changes: SigMap) {
    && (forall s | s !in upd :: ChangeIn(changes, s) == ChangeIn(changes0, s))
    && (forall s | s in upd :: StartMapped(prev, upd[s], changes, s))
  }

  lemma StartWritten(p1: Points, start: int, p: Point, prev: SigMap, changes0: SigMap, upd: SigMap, s: SignalId)
    requires ValidPoints(p1) && ValidPoint(p) && StartMapsDone(prev, changes0, upd, Changes(p)) && Prev(p) == prev
    requires Get(prev, s) == StateBefore(p1, start, s)
    requires changes0 == if start in p1 then Changes(p1[start]) else map[]
    ensures StartAt(p1, p1[start := p], start, upd, s)
  {
    assert Change(p1, start, s) == ChangeIn(changes0, s);
    assert Change(p1[start := p], start, s) == ChangeIn(Changes(p), s);
    if s in upd {
      assert StartMapped(prev, upd[s], Changes(p), s);
    }
  }

  lemma StartSkipped(p1: Points, start: int, prev: SigMap, changes0: SigMap, upd: SigMap, s: SignalId)
    requires ValidPoints(p1) && StartMapsDone(prev, changes0, upd, changes0)
    requires Get(prev, s) == StateBefore(p1, start, s)
    requires changes0 == if start in p1 then Changes(p1[start]) else map[]
    requires start in p1 ==> Prev(p1[start]) == prev
    ensures StartAt(p1, p1, start, upd, s)
  {
    assert Change(p1, start, s) == ChangeIn(changes0, s);
    if s in upd {
      assert StartMapped(prev, upd[s], changes0, s);
    }
  }

  /** What `update_signals_start` makes of the points, the dirty set and the strict form. */
  ghost predicate StartSpec(p1: Points, d1: set<int>, p2: Points, d2: set<int>, start: int, upd: SigMap) {
    && StartDone(p1, p2, start, upd)
    && d1 <= d2 && DirtyCovers(p1, p2, d2)
    && (StrictBefore(p1, start) && start in p2 ==> NoZeros(Prev(p2[start])))
  }

  lemma StartOutcome(p1: Points, d1: set<int>, start: int, prev: SigMap, changes0: SigMap, upd: SigMap, changes: SigMap, write: bool)
    requires ValidPoints(p1) && StartMapsDone(prev, changes0, upd, changes)
    requires forall s :: Get(prev, s) == StateBefore(p1, start, s)
    requires changes0 == if start in p1 then Changes(p1[start]) else map[]
    requires start in p1 ==> Prev(p1[start]) == prev
    requires StrictBefore(p1, start) ==> NoZeros(prev)
    requires !write ==> changes == changes0
    ensures write ==> StartSpec(p1, d1, p1[start := NewPoint(prev, Serialize(changes))], d1 + {start}, start, upd)
    ensures !write ==> StartSpec(p1, d1, p1, d1, start, upd)
  {
    hide Before, StartMapsDone, StartAt, ParseMap, ValidPoint, ApplyChanges, Serialize, NewPoint, Prev, Changes, NoZeros;
    if write {
      var p := NewPoint(prev, Serialize(changes));
      var p2 := p1[start := p];
      forall s ensures StartAt(p1, p2, start, upd, s) {
        StartWritten(p1, start, p, prev, changes0, upd, s);
      }
    } else {
      forall s ensures StartAt(p1, p1, start, upd, s) {
        StartSkipped(p1, start, prev, changes0, upd, s);
      }
    }
  }

  // -- the points in between ---------------------------------------------------------------

  ghost predicate MiddlePrevDone(prev0: SigMap, upd: SigMap, prev: SigMap) {
    && (forall s :: Get(prev, s) == if s in upd then upd[s] else Get(prev0, s))
    && (NoZeros(prev0) ==> NoZeros(prev))
  }

  /** One signal of the loop over a middle point's previous state. */
  function MiddleMap(prev: SigMap, s: SignalId, state: StateNo): SigMap {
    if s in prev then
      if state == 0 then prev - {s} else if prev[s] != state then prev[s := state] else prev
    else if state != 0 then prev[s := state]
    else prev
  }

  ghost predicate MiddleBooks(p2: Points, d2: set<int>, p3: Points, d3: set<int>)
    requires ValidPoints(p2) && ValidPoints(p3)
  {
    && d2 <= d3 && DirtyCovers(p2, p3, d3)
    && (forall t | t in p3 && t in p2 && NoZeros(Prev(p2[t])) :: NoZeros(Prev(p3[t])))
  }

  /** What `update_signals_middle` writes at one point. */
  function MiddlePoint(p3: Points, t: int, prev: SigMap, kept: Bytes): (p4: Points)
    requires ValidPoints(p3) && ParseMap(kept).Ok?
    ensures ValidPoints(p4)
  {
    if kept == [] then p3 - {t} else p3[t := NewPoint(prev, kept)]
  }

  lemma MiddleStep(p2: Points, p3: Points, start: int, end: int, upd: SigMap, todo: set<int>, t: int, prev: SigMap, kept: Bytes)
    requires MiddleUpTo(p2, p3, start, end, upd, todo)
    requires t in todo && start < t < end && t in p3
    requires MiddlePrevDone(Prev(p3[t]), upd, prev)
    requires ParseMap(kept) == Ok(Changes(p3[t]) - upd.Keys)
    requires kept == [] <==> ParseMap(kept) == Ok(map[])
    ensures MiddleUpTo(p2, MiddlePoint(p3, t, prev, kept), start, end, upd, todo - {t})
  {
    assert Visited(p2, p3, start, end, upd, todo, t) && SameAt(p2, p3, t);
    var p4 := MiddlePoint(p3, t, prev, kept);
    forall u
      ensures Visited(p2, p4, start, end, upd, todo - {t}, u)
    {
      if u == t {
        MiddleStepAt(p2, p4, upd, t, prev, kept);
      } else {
        assert Visited(p2, p3, start, end, upd, todo, u);
        OtherPoint(p2, p3, p4, upd, u);
      }
    }
  }

  lemma MiddleBooksStep(p2: Points, d2: set<int>, p3: Points, d3: set<int>, upd: SigMap, t: int, prev: SigMap, kept: Bytes, dirty: bool)
    requires ValidPoints(p2) && ValidPoints(p3) && MiddleBooks(p2, d2, p3, d3)
    requires t in p3 && SameAt(p2, p3, t)
    requires MiddlePrevDone(Prev(p3[t]), upd, prev)
    requires ParseMap(kept) == Ok(Changes(p3[t]) - upd.Keys)
    requires kept == [] <==> ParseMap(kept) == Ok(map[])
    requires !dirty ==> ParseMap(kept) == Ok(Changes(p3[t]))
    ensures MiddleBooks(p2, d2, MiddlePoint(p3, t, prev, kept), if dirty then d3 + {t} else d3)
  {
    var p4, d4 := MiddlePoint(p3, t, prev, kept), if dirty then d3 + {t} else d3;
    forall u | u !in d4
      ensures u in p4 ==> u in p2 && Changes(p2[u]) == Changes(p4[u])
      ensures u in p2 && u !in p4 ==> Changes(p2[u]) == map[]
    {
      assert u !in d3;
    }
  }

  lemma OtherPoint(p2: Points, p3: Points, p4: Points, upd: SigMap, u: int)
    requires ValidPoints(p2) && ValidPoints(p3) && ValidPoints(p4) && SameAt(p3, p4, u)
    ensures MiddleAt(p2, p3, upd, u) ==> MiddleAt(p2, p4, upd, u)
    ensures SameAt(p2, p3, u) ==> SameAt(p2, p4, u)
  {
    forall s ensures Change(p3, u, s) == Change(p4, u, s) {
    }
  }

  lemma MiddleStepAt(p2: Points, p4: Points, upd: SigMap, t: int, prev: SigMap, kept: Bytes)
    requires ValidPoints(p2) && ValidPoints(p4) && t in p2
    requires MiddlePrevDone(Prev(p2[t]), upd, prev)
    requires ParseMap(kept) == Ok(Changes(p2[t]) - upd.Keys)
    requires kept == [] <==> ParseMap(kept) == Ok(map[])
    requires if kept == [] then t !in p4 else t in p4 && p4[t] == NewPoint(prev, kept)
    ensures MiddleAt(p2, p4, upd, t)
  {
    forall s
      ensures Change(p4, t, s) == if s in upd then None else Change(p2, t, s)
    {
      assert Change(p2, t, s) == ChangeIn(Changes(p2[t]), s);
      assert ChangeIn(Changes(p2[t]) - upd.Keys, s) == if s in upd then None else ChangeIn(Changes(p2[t]), s);
    }
  }

  lemma StartInsert(prev: SigMap, changes0: SigMap, upd: SigMap, changes: SigMap, s: SignalId, state: StateNo)
    requires StartMapsDone(prev, changes0, upd, changes) && s !in upd
    ensures StartMapsDone(prev, changes0, upd[s := state], changes[s := state])
  {
    forall r | r in upd ensures StartMapped(prev, upd[r], changes[s := state], r) {
      assert StartMapped(prev, upd[r], changes, r);
    }
    forall r | r != s ensures ChangeIn(changes[s := state], r) == ChangeIn(changes, r) {
    }
  }

  lemma StartOmit(prev: SigMap, changes0: SigMap, upd: SigMap, changes: SigMap, s: SignalId, state: StateNo)
    requires StartMapsDone(prev, changes0, upd, changes) && s !in upd && state == Get(prev, s)
    requires s in changes ==> changes[s] == state
    ensures StartMapsDone(prev, changes0, upd[s := state], changes)
  {
    forall r | r in upd ensures StartMapped(prev, upd[r], changes, r) {
    }
  }

  lemma StartStep(prev: SigMap, changes0: SigMap, upd: SigMap, changes: SigMap, s: SignalId, state: StateNo)
    requires StartMapsDone(prev, changes0, upd, changes) && s !in upd && s != 0
    ensures StartMapsDone(prev, changes0, upd[s := state], StartMap(prev, changes, s, state))
  {
    var next := StartMap(prev, changes, s, state);
    assert StartMapped(prev, state, next, s);
    forall r | r in upd ensures StartMapped(prev, upd[r], next, r) {
      assert StartMapped(prev, upd[r], changes, r);
    }
    forall r | r != s ensures ChangeIn(next, r) == ChangeIn(changes, r) {
    }
  }

  /** Between the points of the interval, f is what the next point remembers for s. */
  ghost predicate FitsPrev(points: Points, start: int, end: int, s: SignalId, f: int -> int)
    requires ValidPoints(points)
  {
    forall t, u | t in points && start <= u < t < end && Gap(points, u, t) :: f(u) == Get(Prev(points[t]), s) as int
  }

  ghost predicate Gap(points: Points, u: int, t: int) {
    forall w | w in points :: w <= u || t <= w
  }

  /** The day indexes after the middle step: only the first signal's moves, because the source
      advances its time cursor inside the loop over signals. */
  ghost predicate MiddleDays(cal: Calendar, d0: DayIndexes, d1: DayIndexes,
                             signals_: seq<SignalId>, states: seq<StateNo>, start: int, upTo: int, f: int -> int)
    requires |signals_| == |states|
  {
    && d1.Keys == d0.Keys
    && (forall s | s in d0 && (signals_ == [] || s != signals_[0]) :: d1[s] == d0[s])
    && (signals_ != [] && signals_[0] in d0 && IndexOf(cal, d0[signals_[0]], f) ==>
          IndexOf(cal, d1[signals_[0]], Overwrite(f, start, upTo, states[0] as int)))
  }

  lemma IndexSame(cal: Calendar, m: Option<SignalDays>, f: int -> int, g: int -> int)
    requires IndexOf(cal, m, f) && forall t :: f(t) == g(t)
    ensures IndexOf(cal, m, g)
  {
    forall k: int, s: nat | s >= 1
      ensures DayTime(m.value, k, s) == Count(g, cal.start(k), cal.start(k + 1), s)
    {
      CountSame(f, g, cal.start(k), cal.start(k + 1), s);
    }
  }

  /** An exact index stays exact over a day step across a constant stretch. */
  lemma DayStepExact(cal: Calendar, d: Option<SignalDays>, lo: int, hi: int, from: StateNo, to: StateNo, d2: Option<SignalDays>, f: int -> int)
    requires ValidCalendar(cal) && DayStep(cal, d, lo, hi, from, to, d2) && IndexOf(cal, d, f)
    requires forall t | lo <= t < hi :: f(t) == from as int
    ensures IndexOf(cal, d2, Overwrite(f, lo, hi, to as int))
  {
    AdjustKeepsExact(cal, d.value, lo, hi, from as int, to as int, f);
  }

  lemma MiddleDaysStep(cal: Calendar, d0: DayIndexes, d1: DayIndexes, d2: DayIndexes,
                       signals_: seq<SignalId>, states: seq<StateNo>, start: int, lo: int, hi: int, from: StateNo, f: int -> int)
    requires ValidCalendar(cal) && |signals_| == |states| && start <= lo < hi
    requires MiddleDays(cal, d0, d1, signals_, states, start, lo, f) && d2.Keys == d1.Keys
    requires forall s | s in d1 && (signals_ == [] || s != signals_[0]) :: d2[s] == d1[s]
    requires signals_ != [] ==> signals_[0] in d1 && DayStep(cal, d1[signals_[0]], lo, hi, from, states[0], d2[signals_[0]])
    requires forall u | lo <= u < hi :: f(u) == from as int
    ensures MiddleDays(cal, d0, d2, signals_, states, start, hi, f)
  {
    if signals_ != [] && signals_[0] in d0 && IndexOf(cal, d0[signals_[0]], f) {
      var s0, to := signals_[0], states[0] as int;
      var g := Overwrite(f, start, lo, to);
      DayStepExact(cal, d1[s0], lo, hi, from, states[0], d2[s0], g);
      IndexSame(cal, d2[s0], Overwrite(g, lo, hi, to), Overwrite(f, start, hi, to));
    }
  }

  lemma MiddleDaysStart(cal: Calendar, d0: DayIndexes, signals_: seq<SignalId>, states: seq<StateNo>, start: int, f: int -> int)
    requires |signals_| == |states|
    ensures MiddleDays(cal, d0, d0, signals_, states, start, start, f)
  {
    if signals_ != [] && signals_[0] in d0 && IndexOf(cal, d0[signals_[0]], f) {
      IndexSame(cal, d0[signals_[0]], f, Overwrite(f, start, start, states[0] as int));
    }
  }

  lemma MiddleMapStep(prev0: SigMap, upd: SigMap, prev: SigMap, s: SignalId, state: StateNo)
    requires MiddlePrevDone(prev0, upd, prev) && s !in upd
    ensures MiddlePrevDone(prev0, upd[s := state], MiddleMap(prev, s, state))
    ensures Get(prev, s) == Get(prev0, s)
  {
  }

  /** One pass over the signals moves only the first signal's day index. */
  ghost predicate OnlyFirst(cal: Calendar, r: Request, d0: DayIndexes, d1: DayIndexes, lo: int, hi: int, prev0: SigMap)
    requires |r.signals| == |r.states|
  {
    && d1.Keys == d0.Keys
    && (forall s | s in d0 && (r.signals == [] || s != r.signals[0]) :: d1[s] == d0[s])
    && (r.signals != [] ==>
          && r.signals[0] in d0
          && DayStep(cal, d0[r.signals[0]], lo, hi, Get(prev0, r.signals[0]), r.states[0], d1[r.signals[0]]))
  }

  /** The middle loop's time cursor: the points of the interval beyond it are still to do. */
  ghost predicate Cursor(p2: Points, start: int, end: int, prevT: int, todo: set<int>) {
    && start <= prevT < end
    && (prevT == start || prevT in p2)
    && (forall t :: t in todo <==> t in p2 && prevT < t < end)
  }

  /** The middle loop's invariant, from the points, dirty set and day indexes it started with. */
  ghost predicate MiddleInv(cal: Calendar, r: Request, ids: set<SignalId>, f: int -> int,
                            p2: Points, d2: set<int>, days2: DayIndexes,
                            p3: Points, d3: set<int>, days3: DayIndexes, prevT: int, todo: set<int>) {
    && ValidRequest(r, ids)
    && Cursor(p2, r.start, r.end, prevT, todo)
    && MiddleUpTo(p2, p3, r.start, r.end, Upd(r), todo)
    && MiddleBooks(p2, d2, p3, d3)
    && MiddleDays(cal, days2, days3, r.signals, r.states, r.start, prevT, f)
  }

  lemma CursorMoves(p2: Points, p3: Points, start: int, end: int, upd: SigMap, prevT: int, todo: set<int>, t: int)
    requires Cursor(p2, start, end, prevT, todo) && MiddleUpTo(p2, p3, start, end, upd, todo) && IsMin(t, todo)
    ensures ValidPoints(p2) && ValidPoints(p3) && t in todo && start <= prevT < t < end && t in p2
    ensures Cursor(p2, start, end, t, todo - {t})
  {
    hide MiddleUpTo;
    MiddleValid(p2, p3, start, end, upd, todo);
  }

  lemma MiddleValid(p2: Points, p3: Points, start: int, end: int, upd: SigMap, todo: set<int>)
    requires MiddleUpTo(p2, p3, start, end, upd, todo)
    ensures ValidPoints(p2) && ValidPoints(p3)
  {
  }

  /** Up to the next point the state is the one stored there. */
  lemma CursorGap(p2: Points, start: int, end: int, s: SignalId, f: int -> int, prevT: int, todo: set<int>, t: int)
    requires ValidPoints(p2) && Cursor(p2, start, end, prevT, todo) && IsMin(t, todo) && FitsPrev(p2, start, end, s, f)
    ensures t in p2 && forall u | prevT <= u < t :: f(u) == Get(Prev(p2[t]), s) as int
  {
    forall u | prevT <= u < t ensures f(u) == Get(Prev(p2[t]), s) as int {
      assert Gap(p2, u, t);
    }
  }

  lemma MiddleIterate(cal: Calendar, r: Request, ids: set<SignalId>, f: int -> int,
                      p2: Points, d2: set<int>, days2: DayIndexes,
                      p3: Points, d3: set<int>, days3: DayIndexes, prevT: int, todo: set<int>,
                      t: int, prev: SigMap, days4: DayIndexes, kept: Bytes, changed: bool)
    requires ValidCalendar(cal) && MiddleInv(cal, r, ids, f, p2, d2, days2, p3, d3, days3, prevT, todo)
    requires days2.Keys == ids && (r.signals != [] ==> FitsPrev(p2, r.start, r.end, r.signals[0], f))
    requires IsMin(t, todo) && t in p3 && p3[t] == p2[t]
    requires MiddlePrevDone(Prev(p3[t]), Upd(r), prev) && OnlyFirst(cal, r, days3, days4, prevT, t, Prev(p3[t]))
    requires ParseMap(kept) == Ok(Changes(p3[t]) - Upd(r).Keys)
    requires kept == [] <==> ParseMap(kept) == Ok(map[])
    requires !changed ==> ParseMap(kept) == Ok(Changes(p3[t]))
    ensures MiddleInv(cal, r, ids, f, p2, d2, days2, MiddlePoint(p3, t, prev, kept), if changed then d3 + {t} else d3, days4, t, todo - {t})
  {
    hide MiddleUpTo, MiddleBooks, ParseMap, Changes, IndexOf, FitsPrev, DayStep, MiddlePoint, IsMin, Cursor;
    CursorMoves(p2, p3, r.start, r.end, Upd(r), prevT, todo, t);
    MiddleStep(p2, p3, r.start, r.end, Upd(r), todo, t, prev, kept);
    MiddleBooksStep(p2, d2, p3, d3, Upd(r), t, prev, kept, changed);
    var from := if r.signals == [] then 0 else Get(Prev(p2[t]), r.signals[0]);
    if r.signals != [] {
      CursorGap(p2, r.start, r.end, r.signals[0], f, prevT, todo, t);
      MiddleDaysStep(cal, days2, days3, days4, r.signals, r.states, r.start, prevT, t, from, f);
    }
  }

  lemma MiddleStart(cal: Calendar, r: Request, ids: set<SignalId>, f: int -> int, p2: Points, d2: set<int>, days2: DayIndexes, todo: set<int>)
    requires ValidRequest(r, ids) && ValidPoints(p2)
    requires forall t :: t in todo <==> t in p2 && r.start < t < r.end
    ensures MiddleInv(cal, r, ids, f, p2, d2, days2, p2, d2, days2, r.start, todo)
  {
    MiddleDaysStart(cal, days2, r.signals, r.states, r.start, f);
    forall t ensures Visited(p2, p2, r.start, r.end, Upd(r), todo, t) {
      MiddleAtSame(p2, Upd(r), t);
    }
  }

  lemma MiddleAtSame(p2: Points, upd: SigMap, t: int)
    requires ValidPoints(p2)
    ensures t !in p2 ==> MiddleAt(p2, p2, upd, t)
  {
  }

  /** With nothing left to do the cursor stands where `LastPoint` says. */
  lemma CursorEnd(p2: Points, start: int, end: int, prevT: int)
    requires start < end && Cursor(p2, start, end, prevT, {})
    ensures prevT == LastPoint(p2, start, end)
  {
    var lo := LastPoint(p2, start, end);
    assert lo > prevT ==> lo in p2;
  }

  // -- bookkeeping over the three steps ----------------------------------------------------

  lemma CoversSelf(points: Points, dirty: set<int>)
    requires ValidPoints(points)
    ensures DirtyCovers(points, points, dirty)
  {
  }

  lemma CoversThrough(p0: Points, p1: Points, p2: Points, d1: set<int>, d2: set<int>)
    requires ValidPoints(p0) && ValidPoints(p1) && ValidPoints(p2)
    requires DirtyCovers(p0, p1, d1) && d1 <= d2 && DirtyCovers(p1, p2, d2)
    ensures DirtyCovers(p0, p2, d2)
  {
  }

  /** The strict form survives an update exactly when no signal is set to 0 that was already
      unknown just before the end: the source then leaves an explicit 0 in the end point. */
  lemma StepsStrict(p0: Points, p1: Points, p2: Points, p3: Points, d2: set<int>, d3: set<int>, r: Request)
    requires Passed(r) && ValidPoints(p0) && Strict(p0)
    requires EndDone(p0, p1, r.end, Upd(r)) && EndStrict(p0, p1, r.end, Upd(r))
    requires StartDone(p1, p2, r.start, Upd(r))
    requires StrictBefore(p1, r.start) && r.start in p2 ==> NoZeros(Prev(p2[r.start]))
    requires MiddleUpTo(p2, p3, r.start, r.end, Upd(r), {}) && MiddleBooks(p2, d2, p3, d3)
    ensures Strict(p3) <==> ZeroesKnown(r, p0)
  {
    assert Visited(p2, p3, r.start, r.end, Upd(r), {}, r.end);
    assert r.end in p3 <==> r.end in p1;
    assert r.end in p3 ==> p3[r.end] == p1[r.end];
    forall t | t in p3 && t != r.end
      ensures NoZeros(Prev(p3[t]))
    {
      assert Visited(p2, p3, r.start, r.end, Upd(r), {}, t);
      assert t in p2 && NoZeros(Prev(p2[t])) by {
        assert t != r.start ==> t in p0 && p2[t] == p0[t];
      }
    }
  }

  lemma PrevKept(p0: Points, p1: Points, start: int, end: int)
    requires Chained(p0) && ValidPoints(p1) && SameExcept(p0, p1, end) && start < end
    ensures PrevUpTo(p1, start)
  {
    forall u | u in p1 && u <= start
      ensures PrevOk(p1, u)
    {
      assert u in p0 && p1[u] == p0[u] && PrevOk(p0, u);
      forall s ensures StateBefore(p1, u, s) == StateBefore(p0, u, s) {
        BeforeAgree(ChangesOf(p1), ChangesOf(p0), u, s);
      }
    }
  }
}
