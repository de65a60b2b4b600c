/** What an interval update does to the signals' day indexes (server/db/signal.rs:563-588,
    485-489). */
module SignalIndex {
  import opened Base
  import opened Days
  import opened SignalPoint
  import opened SignalTimeline
  import opened SignalUpdate

  /** One signal's state as a function of time. */
  ghost function StateFn(points: Points, s: SignalId): int -> int
    requires ValidPoints(points)
  {
    t => StateBefore(points, t + 1, s) as int
  }

  lemma StateFnNat(points: Points, s: SignalId)
    requires ValidPoints(points)
    ensures forall t :: StateFn(points, s)(t) >= 0
  {
    forall t ensures StateFn(points, s)(t) >= 0 {
      assert StateBefore(points, t + 1, s) as int >= 0;
    }
  }

  /** A day index is exact if it counts, for every day, the time spent in every state. */
  ghost predicate Exact(cal: Calendar, points: Points, days: DayIndexes, s: SignalId)
    requires ValidPoints(points) && s in days
  {
    IndexOf(cal, days[s], StateFn(points, s))
  }

  /** When the index of s follows an update. The middle step moves only the first signal's index, so
      any other must have had its new state all along up to the last point of the interval. */
  ghost predicate IndexFollows(r: Request, p0: Points, s: SignalId)
    requires ValidPoints(p0) && r.start < r.end && |r.signals| == |r.states|
  {
    s in r.signals && s != r.signals[0] ==>
      forall t | r.start <= t < LastPoint(p0, r.start, r.end) :: StateFn(p0, s)(t) == Upd(r)[s] as int
  }

  lemma {:induction false} CountLess(f: int -> int, g: int -> int, a: int, b: int, v: int, t0: int)
    requires forall t | a <= t < b && f(t) == v :: g(t) == v
    ensures Count(f, a, b, v) <= Count(g, a, b, v)
    ensures a <= t0 < b && f(t0) != v && g(t0) == v ==> Count(f, a, b, v) < Count(g, a, b, v)
    decreases b - a
  {
    if a < b {
      CountLess(f, g, a, b - 1, v, t0);
    }
  }

  /** An exact index cannot stay exact when a stretch that was not all `to` is overwritten with it. */
  lemma OverwriteShows(cal: Calendar, m: Option<SignalDays>, f: int -> int, lo: int, hi: int, to: nat, t0: int)
    requires ValidCalendar(cal) && IndexOf(cal, m, f)
    requires lo <= t0 < hi && f(t0) >= 0 && f(t0) != to
    ensures !IndexOf(cal, m, Overwrite(f, lo, hi, to))
  {
    var k, g := cal.dayOf(t0), Overwrite(f, lo, hi, to);
    var a, b := cal.start(k), cal.start(k + 1);
    if to >= 1 {
      CountLess(f, g, a, b, to, t0);
      assert DayTime(m.value, k, to) == Count(f, a, b, to);
    } else {
      var v: nat := f(t0);
      CountLess(g, f, a, b, v, t0);
      assert DayTime(m.value, k, v) == Count(f, a, b, v);
    }
  }

  /** Between its last point and the end of the interval the old state is constant. */
  lemma ConstantTail(p0: Points, start: int, end: int, s: SignalId, t: int)
    requires ValidPoints(p0) && start < end && LastPoint(p0, start, end) <= t < end
    ensures StateFn(p0, s)(t) == StateBefore(p0, end, s) as int
  {
    hide Before, LastPoint, ChangesOf, Prev, Changes;
    TailConstant(p0, start, end, s, t);
  }

  lemma TailConstant(p0: Points, start: int, end: int, s: SignalId, t: int)
    requires ValidPoints(p0) && start < end && LastPoint(p0, start, end) <= t < end
    ensures StateBefore(p0, t + 1, s) == StateBefore(p0, end, s)
  {
    hide Before;
    assert forall u | t < u < end :: u !in p0;
    assert forall u | t + 1 <= u < end :: u !in ChangesOf(p0);
    BeforeConstant(ChangesOf(p0), t + 1, end, s);
  }

  lemma ConstantGap(p0: Points, u: int, t: int, s: SignalId)
    requires ValidPoints(p0) && u < t && Gap(p0, u, t)
    ensures StateFn(p0, s)(u) == StateBefore(p0, t, s) as int
  {
    hide Before;
    BeforeConstant(ChangesOf(p0), u + 1, t, s);
  }

  /** The first signal's state as the middle step finds its index: the end step has moved the
      stretch after the last point. */
  ghost function AfterEnd(r: Request, p0: Points, s: SignalId): int -> int
    requires ValidPoints(p0) && r.start < r.end && |r.signals| == |r.states| && s in r.signals
  {
    Overwrite(StateFn(p0, s), LastPoint(p0, r.start, r.end), r.end, Upd(r)[s] as int)
  }

  lemma SameLastPoint(p0: Points, p1: Points, p2: Points, start: int, end: int)
    requires start < end && SameExcept(p0, p1, end) && SameExcept(p1, p2, start)
    ensures LastPoint(p0, start, end) == LastPoint(p2, start, end)
  {
    var a, b := LastPoint(p0, start, end), LastPoint(p2, start, end);
    assert a > start ==> a in p2;
    assert b > start ==> b in p0;
  }

  lemma MiddleFits(r: Request, p0: Points, p1: Points, p2: Points, s: SignalId)
    requires r.start < r.end && |r.signals| == |r.states| && s in r.signals
    requires Chained(p0) && ValidPoints(p2) && SameExcept(p0, p1, r.end) && SameExcept(p1, p2, r.start)
    ensures FitsPrev(p2, r.start, r.end, s, AfterEnd(r, p0, s))
  {
    forall t, u | t in p2 && r.start <= u < t < r.end && Gap(p2, u, t)
      ensures AfterEnd(r, p0, s)(u) == Get(Prev(p2[t]), s) as int
    {
      assert t in p0 && p0[t] == p1[t] == p2[t] && PrevOk(p0, t);
      forall w | w in p0 ensures w <= u || t <= w {
        assert w == r.start || w == r.end || (w in p1 && w in p2);
      }
      ConstantGap(p0, u, t, s);
    }
  }

  /** The state function after an update. */
  lemma UpdatedFn(r: Request, p0: Points, p3: Points, s: SignalId, t: int)
    requires r.start < r.end && |r.signals| == |r.states| && ValidPoints(p0) && ValidPoints(p3)
    requires StateBefore(p3, t + 1, s) == Desired(ChangesOf(p0), r.start, r.end, Upd(r), t + 1, s)
    ensures StateFn(p3, s)(t) == if r.start <= t < r.end && s in r.signals then Upd(r)[s] as int else StateFn(p0, s)(t)
  {
    hide Before;
  }

  /** The end step keeps every index exact for the state it has arranged so far. */
  lemma EndIndex(cal: Calendar, r: Request, p0: Points, d0: DayIndexes, d1: DayIndexes, s: SignalId)
    requires ValidCalendar(cal) && ValidPoints(p0) && ValidRequest(r, d0.Keys)
    requires EndDays(cal, d0, d1, Upd(r), LastPoint(p0, r.start, r.end), r.end, p0)
    requires s in d0 && Exact(cal, p0, d0, s)
    ensures s in d1
    ensures if s in r.signals then IndexOf(cal, d1[s], AfterEnd(r, p0, s)) else d1[s] == d0[s]
  {
    if s in r.signals {
      var lo := LastPoint(p0, r.start, r.end);
      forall t | lo <= t < r.end ensures StateFn(p0, s)(t) == StateBefore(p0, r.end, s) as int {
        ConstantTail(p0, r.start, r.end, s, t);
      }
      DayStepExact(cal, d0[s], lo, r.end, StateBefore(p0, r.end, s), Upd(r)[s], d1[s], StateFn(p0, s));
    }
  }

  /** What the end and middle steps leave of an exact index. */
  lemma UpdateDays(cal: Calendar, r: Request, p0: Points, p3: Points, d0: DayIndexes, d1: DayIndexes, d3: DayIndexes, f: int -> int, s: SignalId)
    requires ValidCalendar(cal) && ValidPoints(p0) && ValidPoints(p3) && ValidRequest(r, d0.Keys)
    requires forall t :: StateBefore(p3, t, s) == Desired(ChangesOf(p0), r.start, r.end, Upd(r), t, s)
    requires EndDays(cal, d0, d1, Upd(r), LastPoint(p0, r.start, r.end), r.end, p0)
    requires MiddleDays(cal, d1, d3, r.signals, r.states, r.start, LastPoint(p0, r.start, r.end), f)
    requires r.signals != [] ==> f == AfterEnd(r, p0, r.signals[0])
    requires s in d0 && Exact(cal, p0, d0, s)
    ensures Exact(cal, p3, d3, s) <==> IndexFollows(r, p0, s)
  {
    var f0, f3 := StateFn(p0, s), StateFn(p3, s);
    EndIndex(cal, r, p0, d0, d1, s);
    forall t ensures f3(t) == if r.start <= t < r.end && s in r.signals then Upd(r)[s] as int else f0(t) {
      UpdatedFn(r, p0, p3, s, t);
    }
    if s in r.signals {
      MovedIndex(cal, r, p0, p3, d1, d3, f, s);
    } else {
      hide IndexOf;
      IndexSame(cal, d3[s], f0, f3);
    }
  }

  lemma MovedIndex(cal: Calendar, r: Request, p0: Points, p3: Points, d1: DayIndexes, d3: DayIndexes, f: int -> int, s: SignalId)
    requires ValidCalendar(cal) && ValidPoints(p0) && ValidPoints(p3) && ValidRequest(r, d1.Keys) && s in r.signals
    requires MiddleDays(cal, d1, d3, r.signals, r.states, r.start, LastPoint(p0, r.start, r.end), f)
    requires f == AfterEnd(r, p0, r.signals[0]) && IndexOf(cal, d1[s], AfterEnd(r, p0, s))
    requires forall t :: StateFn(p3, s)(t) == if r.start <= t < r.end then Upd(r)[s] as int else StateFn(p0, s)(t)
    ensures s in d3 && (Exact(cal, p3, d3, s) <==> IndexFollows(r, p0, s))
  {
    hide Before, IndexOf;
    MiddleIndex(cal, r, p0, d1, d3, f, s);
    StateFnNat(p0, s);
    FollowIndex(cal, d3[s], StateFn(p0, s), StateFn(p3, s), r.start, LastPoint(p0, r.start, r.end), r.end, Upd(r)[s] as int, s == r.signals[0]);
  }

  lemma MiddleIndex(cal: Calendar, r: Request, p0: Points, d1: DayIndexes, d3: DayIndexes, f: int -> int, s: SignalId)
    requires ValidPoints(p0) && ValidRequest(r, d1.Keys) && s in r.signals
    requires MiddleDays(cal, d1, d3, r.signals, r.states, r.start, LastPoint(p0, r.start, r.end), f)
    requires f == AfterEnd(r, p0, r.signals[0])
    requires IndexOf(cal, d1[s], AfterEnd(r, p0, s))
    ensures s in d3
    ensures var f0, lo, to := StateFn(p0, s), LastPoint(p0, r.start, r.end), Upd(r)[s] as int;
            IndexOf(cal, d3[s], Arranged(f0, r.start, lo, r.end, to, s == r.signals[0]))
  {
    if s == r.signals[0] {
      ZipAt(r.signals, r.states, 0);
    }
  }

  /** The state an index counts after the middle step. */
  ghost function Arranged(f0: int -> int, start: int, lo: int, end: int, to: int, first: bool): int -> int {
    var g := Overwrite(f0, lo, end, to);
    if first then Overwrite(g, start, lo, to) else g
  }

  lemma FollowIndex(cal: Calendar, m: Option<SignalDays>, f0: int -> int, f3: int -> int, start: int, lo: int, end: int, to: nat, first: bool)
    requires ValidCalendar(cal) && start <= lo <= end && (forall t :: f0(t) >= 0)
    requires IndexOf(cal, m, Arranged(f0, start, lo, end, to, first))
    requires forall t :: f3(t) == if start <= t < end then to else f0(t)
    ensures IndexOf(cal, m, f3) <==> !first ==> forall t | start <= t < lo :: f0(t) == to
  {
    if first {
      IndexSame(cal, m, Overwrite(Overwrite(f0, lo, end, to), start, lo, to), f3);
    } else {
      OtherIndex(cal, m, f0, f3, start, lo, end, to);
    }
  }

  lemma OtherIndex(cal: Calendar, m: Option<SignalDays>, f0: int -> int, f3: int -> int, start: int, lo: int, end: int, to: nat)
    requires ValidCalendar(cal) && start <= lo <= end && (forall t :: f0(t) >= 0)
    requires IndexOf(cal, m, Overwrite(f0, lo, end, to))
    requires forall t :: f3(t) == if start <= t < end then to else f0(t)
    ensures IndexOf(cal, m, f3) <==> forall t | start <= t < lo :: f0(t) == to
  {
    var g := Overwrite(f0, lo, end, to);
    if forall t | start <= t < lo :: f0(t) == to {
      IndexSame(cal, m, g, f3);
    } else {
      var t :| start <= t < lo && f0(t) != to;
      OverwriteShows(cal, m, g, start, lo, to, t);
      if IndexOf(cal, m, f3) {
        IndexSame(cal, m, f3, Overwrite(g, start, lo, to));
      }
    }
  }
}
