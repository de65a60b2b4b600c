/** Two requests the signal store does not take as its documentation has it: one that the debug
    build stops, one that leaves a day index wrong. */
module SignalFaults {
  import opened Base
  import opened Days
  import opened SignalPoint
  import opened SignalTimeline
  import opened SignalUpdate
  import opened SignalIndex
  import opened SignalDebug
  import opened SignalTable
  import opened SignalStore

  const ZERO := Request(10, 20, [1], [0])

  /** A signal set to unknown while it is unknown: an empty store passes the debug build's check,
      and does not pass it after this request. */
  lemma ZeroWhileUnknown(cal: Calendar, a: Stage, b: Stage)
    requires a.points == map[] && UpdateSpec(cal, None, ZERO, a, b)
    ensures DebugPasses(a.points) && !DebugPasses(b.points)
  {
    assert [1 as SignalId][..0] == [];
    ZipAt(ZERO.signals, ZERO.states, 0);
    assert ZERO.signals[0] in ZERO.signals;
    BeforeLow(ChangesOf(a.points), ZERO.end, 1);
  }

  /** A new store of two signals, both with states 0 to 2. */
  method NewStore(cal: Calendar) returns (state: State)
    requires ValidCalendar(cal)
    ensures fresh(state) && state.Valid() && state.cal == cal && state.maxSignalChanges == None
    ensures state.points == map[] && state.days == map[1 := Some(map[]), 2 := Some(map[])]
    ensures state.Accepts(ZERO.signals, ZERO.states) && state.Accepts(FIRST.signals, FIRST.states)
    ensures state.Accepts(BOTH.signals, BOTH.states)
  {
    Empty();
    state := new State(cal, map[1 := 0, 2 := 0], map[0 := {0, 1, 2}],
                       Stage(map[], {}, map[1 := Some(map[]), 2 := Some(map[])]), None);
    assert state.Known(1, 0) && state.Known(1, 1) && state.Known(1, 2) && state.Known(2, 1);
  }

  lemma Empty()
    ensures Chained(map[]) && forall ids :: Silent(map[], ids)
  {
    var none: Points := map[];
    forall t, s ensures StateBefore(none, t, s) == 0 {
      BeforeLow(ChangesOf(none), t, s);
    }
  }

  /** The store takes the first request and then does not pass the check. */
  method ZeroRun(cal: Calendar) returns (state: State)
    requires ValidCalendar(cal)
    ensures state.Valid() && !DebugPasses(state.points)
  {
    state := NewStore(cal);
    ghost var a := state.Snapshot();
    hide Exact, Chained, Silent, State.Accepts, State.Valid;
    var r := state.UpdateSignals(ZERO.start, ZERO.end, ZERO.signals, ZERO.states, state.days);
    ZeroWhileUnknown(cal, a, state.Snapshot());
  }

  const FIRST := Request(15, 20, [1], [2])
  const BOTH := Request(10, 30, [1, 2], [1, 1])

  lemma FirstArranges(cal: Calendar, a: Stage, b: Stage)
    requires a.points == map[] && UpdateSpec(cal, None, FIRST, a, b)
    ensures forall t, s :: StateBefore(b.points, t, s) == if 15 < t <= 20 && s == 1 then 2 else 0
  {
    hide Before, Exact, DebugPasses, Chained, Silent, DirtyCovers;
    ZipAt(FIRST.signals, FIRST.states, 0);
    forall t, s ensures StateBefore(b.points, t, s) == if 15 < t <= 20 && s == 1 then 2 else 0 {
      BeforeLow(ChangesOf(a.points), t, s);
    }
  }

  lemma LastIsLate(points: Points)
    requires ValidPoints(points)
    requires forall t, s :: StateBefore(points, t, s) == if 15 < t <= 20 && s == 1 then 2 else 0
    ensures !IndexFollows(BOTH, points, 2)
  {
    hide Before;
    ZipAt(BOTH.signals, BOTH.states, 1);
    assert BOTH.signals[1] in BOTH.signals;
    assert StateBefore(points, 15, 1) == 0 && StateBefore(points, 16, 1) == 2;
    BeforeStep(ChangesOf(points), 15, 1);
    assert 15 in points;
    assert LastPoint(points, 10, 30) >= 15;
    assert StateFn(points, 2)(10) == StateBefore(points, 11, 2) as int;
  }

  /** A change of signal 1 and then one of both signals around it: signal 2's day index, exact until
      then, is wrong. */
  lemma SecondIndexWrong(cal: Calendar, a: Stage, b: Stage, c: Stage)
    requires a.points == map[] && 2 in a.days && Exact(cal, a.points, a.days, 2)
    requires UpdateSpec(cal, None, FIRST, a, b) && UpdateSpec(cal, None, BOTH, b, c)
    ensures Exact(cal, b.points, b.days, 2) && !Exact(cal, c.points, c.days, 2)
  {
    hide Before, Exact, DebugPasses, Chained, Silent, DirtyCovers, Desired;
    FirstArranges(cal, a, b);
    LastIsLate(b.points);
    assert FIRST.signals == [1];
  }

  lemma EmptyExact(cal: Calendar, days: DayIndexes, s: SignalId)
    requires s in days && days[s] == Some(map[])
    ensures ValidPoints(map[]) && Exact(cal, map[], days, s)
  {
    var f := StateFn(map[], s);
    forall t ensures f(t) == 0 {
      BeforeLow(ChangesOf(map[]), t + 1, s);
    }
    CountNone(cal, f);
  }

  /** The store takes both requests and then has a wrong day index. */
  method TwoSignalRun(cal: Calendar) returns (state: State)
    requires ValidCalendar(cal)
    ensures state.Valid() && 2 in state.days && !Exact(cal, state.points, state.days, 2)
  {
    state := NewStore(cal);
    ghost var a := state.Snapshot();
    EmptyExact(cal, a.days, 2);
    hide Exact, UpdateSpec, Chained, Silent, State.Accepts, ValidCalendar, State.Valid;
    var r := state.UpdateSignals(FIRST.start, FIRST.end, FIRST.signals, FIRST.states, state.days);
    ghost var b := state.Snapshot();
    r := state.UpdateSignals(BOTH.start, BOTH.end, BOTH.signals, BOTH.states, state.days);
    SecondIndexWrong(cal, a, b, state.Snapshot());
  }
}
