/** The check of the signal store's debug build (server/db/signal.rs:797-816): exactly when it
    passes, and which updates it stops. */
module SignalDebug {
  import opened Base
  import opened IntSets
  import opened SignalPoint
  import opened SignalTimeline
  import opened SignalUpdate

  /** `debug_assert_point_invariants` from the earliest remaining point on: every previous state is
      the map folded so far, and the map is empty at the end. */
  ghost predicate FoldPasses(points: Points, expected: SigMap)
    requires ValidPoints(points)
    decreases points.Keys
  {
    if points == map[] then expected == map[]
    else
      var t := MinOf(points.Keys);
      Prev(points[t]) == expected && FoldPasses(points - {t}, ApplyChanges(expected, Changes(points[t])))
  }

  ghost predicate DebugPasses(points: Points)
    requires ValidPoints(points)
  {
    FoldPasses(points, map[])
  }

  /** The check itself. */
  method DebugCheck(points: Points) returns (ok: bool)
    requires ValidPoints(points)
    ensures ok <==> DebugPasses(points)
  {
    var rest, expected := points, map[];
    while rest != map[]
      invariant ValidPoints(rest) && (DebugPasses(points) <==> FoldPasses(rest, expected))
      decreases rest.Keys
    {
      var t := MinOf(rest.Keys);
      if Prev(rest[t]) != expected {
        return false;
      }
      expected := ApplyChanges(expected, Changes(rest[t]));
      rest := rest - {t};
    }
    return expected == map[];
  }

  // -- when it passes ----------------------------------------------------------------------

  /** `rest` holds the points from `bound` on, and `m` is the state before them. */
  ghost predicate Remaining(points: Points, rest: Points, bound: int, m: SigMap) {
    && ValidPoints(points) && ValidPoints(rest)
    && (forall t | t in rest :: bound <= t && t in points && rest[t] == points[t])
    && (forall t | t in points && t !in rest :: t < bound)
    && NoZeros(m) && forall s :: Get(m, s) == StateBefore(points, bound, s)
  }

  ghost predicate StrictFrom(points: Points, rest: Points)
    requires ValidPoints(points) && ValidPoints(rest)
  {
    forall t | t in rest :: t in points && PrevOk(points, t) && NoZeros(Prev(points[t]))
  }

  /** Maps without explicit zeros are equal if they read the same. */
  lemma SameMaps(m: SigMap, n: SigMap)
    requires NoZeros(m) && NoZeros(n) && forall s :: Get(m, s) == Get(n, s)
    ensures m == n
  {
    forall s ensures s in m <==> s in n {
      assert Get(m, s) == Get(n, s);
    }
    forall s | s in m ensures m[s] == n[s] {
      assert Get(m, s) == Get(n, s);
    }
  }

  lemma NextRemaining(points: Points, rest: Points, bound: int, m: SigMap, t: int)
    requires Remaining(points, rest, bound, m) && IsMin(t, rest.Keys)
    ensures forall s :: StateBefore(points, t, s) == Get(m, s)
    ensures Prev(points[t]) == m <==> PrevOk(points, t) && NoZeros(Prev(points[t]))
    ensures PrevOk(points, t) && NoZeros(Prev(points[t])) ==>
              Remaining(points, rest - {t}, t + 1, ApplyChanges(m, Changes(points[t])))
  {
    hide Before;
    forall s ensures StateBefore(points, t, s) == Get(m, s) {
      BeforeConstant(ChangesOf(points), bound, t, s);
    }
    if PrevOk(points, t) && NoZeros(Prev(points[t])) {
      SameMaps(m, Prev(points[t]));
      forall s ensures Get(ApplyChanges(m, Changes(points[t])), s) == StateBefore(points, t + 1, s) {
        AfterPoint(points, t, s);
      }
    }
  }

  lemma {:induction false} FoldExactly(points: Points, rest: Points, bound: int, m: SigMap)
    requires Remaining(points, rest, bound, m)
    ensures FoldPasses(rest, m) <==> StrictFrom(points, rest) && EndsUnknown(ChangesOf(points))
    decreases rest.Keys
  {
    hide Before, PrevOk, NoZeros, Prev, Changes, EndsUnknown, StrictFrom, ApplyChanges;
    if rest == map[] {
      NoneRemaining(points, bound, m);
      NoneStrict(points);
    } else {
      var t := MinOf(rest.Keys);
      assert rest[t] == points[t];
      NextRemaining(points, rest, bound, m, t);
      StrictFirst(points, rest, t);
      if Prev(points[t]) == m {
        FoldExactly(points, rest - {t}, t + 1, ApplyChanges(m, Changes(points[t])));
      }
    }
  }

  lemma StrictFirst(points: Points, rest: Points, t: int)
    requires ValidPoints(points) && ValidPoints(rest) && t in rest && t in points
    ensures StrictFrom(points, rest) <==>
              PrevOk(points, t) && NoZeros(Prev(points[t])) && StrictFrom(points, rest - {t})
  {
    hide PrevOk, NoZeros;
    forall u | u in rest ensures u == t || u in rest - {t} {
    }
  }

  lemma NoneStrict(points: Points)
    requires ValidPoints(points)
    ensures StrictFrom(points, map[])
  {
  }

  lemma NoneRemaining(points: Points, bound: int, m: SigMap)
    requires Remaining(points, map[], bound, m)
    ensures m == map[] <==> EndsUnknown(ChangesOf(points))
  {
    hide Before;
    var c := ChangesOf(points);
    if EndsUnknown(c) {
      forall s ensures s !in m {
        assert Get(m, s) == Before(c, bound, s) == 0;
      }
    }
    if m == map[] {
      forall t, s | forall u | u in c :: u < t
        ensures Before(c, t, s) == 0
      {
        assert Get(m, s) == Before(c, bound, s);
        BeforeConstant(c, Min(bound, t), Max(bound, t), s);
      }
    }
  }

  /** The check passes exactly if the chain of previous states holds, with no explicit zeros. */
  lemma DebugExactly(points: Points)
    requires ValidPoints(points)
    ensures DebugPasses(points) <==> Chained(points) && Strict(points)
  {
    hide Before;
    var bound := if points == map[] then 0 else MinOf(points.Keys);
    var none: SigMap := map[];
    forall s ensures Get(none, s) == StateBefore(points, bound, s) {
      BeforeLow(ChangesOf(points), bound, s);
    }
    FoldExactly(points, points, bound, none);
  }

  lemma DebugKept(p0: Points, p1: Points)
    requires Chained(p0) && Chained(p1) && (Strict(p0) ==> Strict(p1))
    ensures DebugPasses(p0) ==> DebugPasses(p1)
  {
    DebugExactly(p0);
    DebugExactly(p1);
  }

  // -- what updates make of it -------------------------------------------------------------

  /** From a store that passes, the check passes after an update exactly if no signal is set to 0
      that was already unknown just before the end. */
  lemma StepsDebug(p0: Points, p1: Points, p2: Points, p3: Points, d2: set<int>, d3: set<int>, r: Request)
    requires Passed(r) && ValidPoints(p0) && DebugPasses(p0)
    requires EndDone(p0, p1, r.end, Upd(r)) && EndStrict(p0, p1, r.end, Upd(r))
    requires StartDone(p1, p2, r.start, Upd(r))
    requires StrictBefore(p1, r.start) && r.start in p2 ==> NoZeros(Prev(p2[r.start]))
    requires MiddleUpTo(p2, p3, r.start, r.end, Upd(r), {}) && MiddleBooks(p2, d2, p3, d3)
    ensures DebugPasses(p3) <==> ZeroesKnown(r, p0)
  {
    DebugExactly(p0);
    DebugExactly(p3);
    StepsUpdate(p0, p1, p2, p3, r.start, r.end, Upd(r));
    StepsStrict(p0, p1, p2, p3, d2, d3, r);
  }
}
