/** The signal store (server/db/signal.rs, `State`): points in time, each with the complete prior
    state and its changes, patched in place by interval updates. */
module SignalStore {
  import opened Base
  import opened IntSets
  import opened Days
  import opened SignalPoint
  import opened SignalTimeline
  import opened SignalUpdate
  import opened SignalDebug
  import opened SignalIndex
  import opened SignalGc

  // -- the loops over an update's signals ---------------------------------------------------

  /** Adjusts one signal's day index; a panic poisons it. */
  method AdjustDays(cal: Calendar, days0: DayIndexes, s: SignalId, lo: int, hi: int, from: StateNo, to: StateNo) returns (days1: DayIndexes)
    requires ValidCalendar(cal) && s in days0
    ensures s in days1 && days1 == days0[s := days1[s]]
    ensures DayStep(cal, days0[s], lo, hi, from, to, days1[s])
    ensures hi <= lo ==> days1 == days0
  {
    days1 := days0;
    if days0[s].Some? {
      var r := AdjustSignal(cal, days0[s].value, lo, hi, from as int, to as int);
      days1 := days0[s := r];
    }
  }

  /** The first i signals are in both maps and their day indexes are adjusted. */
  ghost predicate EndInv(cal: Calendar, r: Request, lo: int, prev0: SigMap, days0: DayIndexes,
                         i: int, prev: SigMap, changes: SigMap, days1: DayIndexes) {
    && 0 <= i <= |r.signals| == |r.states|
    && ValidRequest(r, days1.Keys)
    && EndMapsDone(prev0, Zip(r.signals[..i], r.states[..i]), prev, changes)
    && DaysDone(cal, days0, days1, Zip(r.signals[..i], r.states[..i]), lo, r.end, prev0)
  }

  lemma EndInvStep(cal: Calendar, r: Request, lo: int, prev0: SigMap, days0: DayIndexes,
                   i: int, prev: SigMap, changes: SigMap, days1: DayIndexes, days2: DayIndexes)
    requires i < |r.signals| && EndInv(cal, r, lo, prev0, days0, i, prev, changes, days1)
    requires var s := r.signals[i];
             && s in days1 && s in days2 && days2 == days1[s := days2[s]]
             && DayStep(cal, days1[s], lo, r.end, Get(prev, s), r.states[i], days2[s])
    ensures var maps := EndMap(prev, changes, r.signals[i], r.states[i]);
            EndInv(cal, r, lo, prev0, days0, i + 1, maps.0, maps.1, days2)
  {
    var s, state, done := r.signals[i], r.states[i], Zip(r.signals[..i], r.states[..i]);
    ZipNext(r.signals, r.states, i);
    EndMapStep(prev0, done, prev, changes, s, state);
    DaysDoneStep(cal, days0, days1, done, lo, r.end, prev0, s, state, days2);
  }

  /** `update_signals_end_maps`. */
  method EndMaps(cal: Calendar, r: Request, lo: int, prev0: SigMap, days0: DayIndexes)
    returns (prev: SigMap, changes: SigMap, days1: DayIndexes)
    requires ValidCalendar(cal) && ValidRequest(r, days0.Keys)
    ensures EndMapsDone(prev0, Upd(r), prev, changes)
    ensures DaysDone(cal, days0, days1, Upd(r), lo, r.end, prev0)
  {
    prev, changes, days1 := prev0, map[], days0;
    for i := 0 to |r.signals|
      invariant EndInv(cal, r, lo, prev0, days0, i, prev, changes, days1)
    {
      var s, state, days2 := r.signals[i], r.states[i], days1;
      var oldState := Get(prev, s);
      days1 := AdjustDays(cal, days2, s, lo, r.end, oldState, state);
      EndInvStep(cal, r, lo, prev0, days0, i, prev, changes, days2, days1);
      var maps := EndMap(prev, changes, s, state);
      prev, changes := maps.0, maps.1;
    }
    assert r.signals[..|r.signals|] == r.signals && r.states[..|r.states|] == r.states;
  }

  /** The changes of a start point that already exists. */
  method ReuseStart(r: Request, prev: SigMap, changes0: SigMap) returns (changes: SigMap, write: bool)
    requires Passed(r)
    ensures StartMapsDone(prev, changes0, Upd(r), changes)
    ensures !write ==> changes == changes0
  {
    changes, write := changes0, false;
    for i := 0 to |r.signals|
      invariant StartMapsDone(prev, changes0, Zip(r.signals[..i], r.states[..i]), changes)
      invariant !write ==> changes == changes0
    {
      ZipNext(r.signals, r.states, i);
      assert r.signals[i] in r.signals;
      StartStep(prev, changes0, Zip(r.signals[..i], r.states[..i]), changes, r.signals[i], r.states[i]);
      var next := StartMap(prev, changes, r.signals[i], r.states[i]);
      write := write || next != changes;
      changes := next;
    }
    assert r.signals[..|r.signals|] == r.signals && r.states[..|r.states|] == r.states;
  }

  /** The changes of a new start point: only those that change anything. */
  method FreshStart(r: Request, prev: SigMap) returns (changes: SigMap)
    requires Passed(r)
    ensures StartMapsDone(prev, map[], Upd(r), changes)
  {
    changes := map[];
    for i := 0 to |r.signals|
      invariant StartMapsDone(prev, map[], Zip(r.signals[..i], r.states[..i]), changes)
    {
      ZipNext(r.signals, r.states, i);
      var s := r.signals[i];
      assert s in r.signals && ChangeIn(changes, s) == ChangeIn(map[], s);
      if r.states[i] != Get(prev, s) {
        StartInsert(prev, map[], Zip(r.signals[..i], r.states[..i]), changes, s, r.states[i]);
        changes := changes[s := r.states[i]];
      } else {
        StartOmit(prev, map[], Zip(r.signals[..i], r.states[..i]), changes, s, r.states[i]);
      }
    }
    assert r.signals[..|r.signals|] == r.signals && r.states[..|r.states|] == r.states;
  }

  /** The loop over signals at one middle point: `prev` takes the new states, the day indexes
      move by the stretch since the time cursor. */
  method MiddlePrev(cal: Calendar, r: Request, prev0: SigMap, cursor: int, t: int, days0: DayIndexes) returns (prev: SigMap, days1: DayIndexes)
    requires ValidCalendar(cal) && ValidRequest(r, days0.Keys)
    ensures MiddlePrevDone(prev0, Upd(r), prev)
    ensures OnlyFirst(cal, r, days0, days1, cursor, t, prev0)
  {
    prev, days1 := prev0, days0;
    var prevT := cursor;
    for i := 0 to |r.signals|
      invariant MiddlePrevDone(prev0, Zip(r.signals[..i], r.states[..i]), prev)
      invariant prevT == if i == 0 then cursor else t
      invariant if i == 0 then days1 == days0 else OnlyFirst(cal, r, days0, days1, cursor, t, prev0)
    {
      ZipNext(r.signals, r.states, i);
      assert r.signals[i] in r.signals;
      MiddleMapStep(prev0, Zip(r.signals[..i], r.states[..i]), prev, r.signals[i], r.states[i]);
      var prevState := Get(prev, r.signals[i]);
      prev := MiddleMap(prev, r.signals[i], r.states[i]);
      days1 := AdjustDays(cal, days1, r.signals[i], prevT, t, prevState, r.states[i]);
      prevT := t;
    }
    assert r.signals[..|r.signals|] == r.signals && r.states[..|r.states|] == r.states;
  }

  /** One middle point. */
  method MiddleBody(cal: Calendar, r: Request, ghost ids: set<SignalId>, ghost f: int -> int,
                    ghost p2: Points, ghost d2: set<int>, ghost days2: DayIndexes,
                    p3: Points, d3: set<int>, days3: DayIndexes, prevT: int, ghost todo: set<int>, t: int)
    returns (p4: Points, d4: set<int>, days4: DayIndexes)
    requires ValidCalendar(cal) && MiddleInv(cal, r, ids, f, p2, d2, days2, p3, d3, days3, prevT, todo)
    requires days2.Keys == ids && (r.signals != [] ==> FitsPrev(p2, r.start, r.end, r.signals[0], f))
    requires IsMin(t, todo)
    ensures MiddleInv(cal, r, ids, f, p2, d2, days2, p4, d4, days4, t, todo - {t})
  {
    assert Visited(p2, p3, r.start, r.end, Upd(r), todo, t) && SameAt(p2, p3, t);
    var prev: SigMap, kept: Bytes, changed: bool;
    prev, days4 := MiddlePrev(cal, r, Prev(p3[t]), prevT, t, days3);
    kept, changed := TrimChanges(p3[t].data[p3[t].changesOff..], r.signals);
    assert (set s | s in r.signals) == Upd(r).Keys;
    MiddleIterate(cal, r, ids, f, p2, d2, days2, p3, d3, days3, prevT, todo, t, prev, days4, kept, changed);
    p4 := MiddlePoint(p3, t, prev, kept);
    d4 := if changed then d3 + {t} else d3;
  }

  // -- the store ---------------------------------------------------------------------------

  class State {
    const cal: Calendar

    /** The type of each signal; ids start at 1. */
    var signals: map<SignalId, int>
    /** The valid states of each known type. */
    var types: map<int, set<StateNo>>
    var points: Points
    var dirty: set<int>
    var days: DayIndexes
    var maxSignalChanges: Option<nat>

    ghost predicate Valid()
      reads this
    {
      && ValidCalendar(cal)
      && Chained(points)
      && days.Keys == signals.Keys
      && (forall s | s in signals :: s >= 1)
      && Silent(points, signals.Keys)
    }

    /** A store with the points and day indexes that loading gave. */
    constructor (cal: Calendar, signals: map<SignalId, int>, types: map<int, set<StateNo>>, store: Stage, max: Option<nat>)
      requires ValidCalendar(cal) && Chained(store.points) && Silent(store.points, store.days.Keys)
      requires store.days.Keys == signals.Keys && forall s | s in signals :: s >= 1
      ensures Valid() && Snapshot() == store && maxSignalChanges == max
      ensures this.cal == cal && this.signals == signals && this.types == types
    {
      this.cal, this.signals, this.types, maxSignalChanges := cal, signals, types, max;
      points, dirty, days := store.points, store.dirty, store.days;
    }

    // -- validation

    ghost predicate Accepts(signals_: seq<SignalId>, states: seq<StateNo>)
      reads this`signals, this`types
    {
      && |signals_| == |states|
      && StrictlyIncreasing(signals_)
      && forall i | 0 <= i < |signals_| :: Known(signals_[i], states[i])
    }

    predicate Known(s: SignalId, state: StateNo)
      reads this`signals, this`types
    {
      && s in signals
      && state < 16
      && state in (if signals[s] in types then types[signals[s]] else {})
    }

    /** `update_signals_validate`. */
    method Validate(signals_: seq<SignalId>, states: seq<StateNo>) returns (ok: bool)
      ensures ok <==> Accepts(signals_, states)
    {
      if |signals_| != |states| {
        return false;
      }
      var nextAllowed: nat := 0;
      for i := 0 to |signals_|
        invariant StrictlyIncreasing(signals_[..i])
        invariant nextAllowed == if i == 0 then 0 else signals_[i - 1] as int + 1
        invariant forall j | 0 <= j < i :: Known(signals_[j], states[j])
      {
        if (signals_[i] as int) < nextAllowed {
          return false;
        }
        if !Known(signals_[i], states[i]) {
          return false;
        }
        nextAllowed := signals_[i] as int + 1;
      }
      assert signals_[..|signals_|] == signals_;
      return true;
    }

    // -- the three steps of an update

    /** `update_signals_end`. */
    method UpdateEnd(r: Request)
      requires ValidRequest(r, signals.Keys) && PrevUpTo(points, r.end)
      requires ValidCalendar(cal) && days.Keys == signals.Keys
      modifies this`points, this`dirty, this`days
      ensures EndSpec(old(points), old(dirty), points, dirty, r.end, Upd(r))
      ensures EndDays(cal, old(days), days, Upd(r), LastPoint(old(points), r.start, r.end), r.end, old(points))
    {
      var lo := LastPoint(points, r.start, r.end);
      var prev0 := PriorState(points, r.end);
      var prev, undo, days1 := EndMaps(cal, r, lo, prev0, days);
      EndDaysFrom(cal, days, days1, Upd(r), lo, r.end, prev0, points);
      EndBookkeeping(points, dirty, r.end, prev0, Upd(r), prev, undo);
      days := days1;
      dirty := if undo == map[] then dirty else dirty + {r.end};
      points := EndPoints(points, r.end, prev, undo);
    }

    /** `update_signals_start`. */
    method UpdateStart(r: Request)
      requires ValidRequest(r, signals.Keys) && PrevUpTo(points, r.start)
      modifies this`points, this`dirty
      ensures StartSpec(old(points), old(dirty), points, dirty, r.start, Upd(r))
    {
      var prev := PriorState(points, r.start);
      var changes: SigMap, write: bool;
      if r.start in points {
        changes, write := ReuseStart(r, prev, Changes(points[r.start]));
      } else {
        changes := FreshStart(r, prev);
        write := changes != map[];
      }
      StartOutcome(points, dirty, r.start, prev, if r.start in points then Changes(points[r.start]) else map[],
                   Upd(r), changes, write);
      dirty := if write then dirty + {r.start} else dirty;
      points := if write then points[r.start := NewPoint(prev, Serialize(changes))] else points;
    }

    /** `update_signals_middle`. The ghost f is the first signal's state function, if its day index
        is exact. */
    method UpdateMiddle(r: Request, ghost f: int -> int)
      requires ValidRequest(r, signals.Keys) && ValidPoints(points)
      requires ValidCalendar(cal) && days.Keys == signals.Keys
      requires r.signals != [] ==> FitsPrev(points, r.start, r.end, r.signals[0], f)
      modifies this`points, this`dirty, this`days
      ensures MiddleInv(cal, r, signals.Keys, f, old(points), old(dirty), old(days), points, dirty, days,
                        LastPoint(old(points), r.start, r.end), {})
    {
      hide MiddleUpTo, MiddleBooks, MiddleDays, ValidRequest;
      var p2, d2, days2, ids := points, dirty, days, signals.Keys;
      var p3, d3, days3 := p2, d2, days2;
      var todo := set t | t in p2 && r.start < t < r.end;
      var prevT := r.start;
      MiddleStart(cal, r, ids, f, p2, d2, days2, todo);
      while todo != {}
        invariant points == p2 && dirty == d2 && days == days2 && signals.Keys == ids
        invariant MiddleInv(cal, r, ids, f, p2, d2, days2, p3, d3, days3, prevT, todo)
        decreases todo
      {
        var t := MinOf(todo);
        p3, d3, days3 := MiddleBody(cal, r, ids, f, p2, d2, days2, p3, d3, days3, prevT, todo, t);
        todo, prevT := todo - {t}, t;
      }
      CursorEnd(p2, r.start, r.end, prevT);
      points, dirty, days := p3, d3, days3;
    }

    /** The three steps in the source's order: the end before the start, so that the state before
        the end can still be examined. */
    method Patch(r: Request)
      requires Valid() && ValidRequest(r, signals.Keys)
      modifies this`points, this`dirty, this`days
      ensures Valid()
      ensures forall t, s :: StateBefore(points, t, s) == Desired(ChangesOf(old(points)), r.start, r.end, Upd(r), t, s)
      ensures old(dirty) <= dirty && DirtyCovers(old(points), points, dirty)
      ensures DebugPasses(old(points)) ==> (DebugPasses(points) <==> ZeroesKnown(r, old(points)))
      ensures forall s | s in days && Exact(cal, old(points), old(days), s) ::
                Exact(cal, points, days, s) <==> IndexFollows(r, old(points), s)
    {
      hide DirtyCovers, EndsUnknown, ValidPoint, StrictBefore, EndStrict, DebugPasses, IndexFollows, Desired, NoZeros;
      ghost var p0, d0, days0 := points, dirty, days;
      UpdateEnd(r);
      ghost var p1, d1, days1 := points, dirty, days;
      PrevKept(p0, p1, r.start, r.end);
      UpdateStart(r);
      ghost var p2, d2 := points, dirty;
      ghost var f := if r.signals == [] then StateFn(p0, 0) else AfterEnd(r, p0, r.signals[0]);
      if r.signals != [] {
        MiddleFits(r, p0, p1, p2, r.signals[0]);
      }
      UpdateMiddle(r, f);
      ghost var a, b, c, d := Stage(p0, d0, days0), Stage(p1, d1, days1), Stage(p2, d2, days1), Stage(points, dirty, days);
      assert PatchSteps(cal, r, f, a, b, c, d);
      PatchState(cal, r, f, a, b, c, d);
      PatchSilent(r, signals.Keys, p0, points);
      PatchDirty(cal, r, f, a, b, c, d);
      PatchDebug(cal, r, f, a, b, c, d);
      forall s | s in days && Exact(cal, p0, days0, s)
        ensures Exact(cal, points, days, s) <==> IndexFollows(r, p0, s)
      {
        PatchDays(cal, r, f, a, b, c, d, s);
      }
    }

    /** `State::gc`. What `gc_days` makes of the day indexes is a parameter. */
    method Gc(gcDays: DayIndexes)
      requires Valid() && gcDays.Keys == days.Keys
      modifies this`points, this`dirty, this`days
      ensures Valid() && GcSpec(maxSignalChanges, old(Snapshot()), Snapshot(), gcDays)
    {
      hide GcSpec, Chained, Silent, ValidCalendar;
      var after := Collect(maxSignalChanges, Stage(points, dirty, days), gcDays, days.Keys);
      points, dirty, days := after.points, after.dirty, after.days;
    }

    /** The store's points, dirty times and day indexes. */
    ghost function Snapshot(): Stage
      reads this`points, this`dirty, this`days
    {
      Stage(points, dirty, days)
    }

    /** An update that passed validation, and the garbage collection after it. */
    method UpdateAndCollect(r: Request, gcDays: DayIndexes)
      requires Valid() && gcDays.Keys == days.Keys && ValidRequest(r, signals.Keys)
      modifies this`points, this`dirty, this`days
      ensures Valid() && UpdateSpec(cal, maxSignalChanges, r, old(Snapshot()), Snapshot())
    {
      ghost var a := Snapshot();
      Patch(r);
      ghost var b := Snapshot();
      Gc(gcDays);
      UpdateOutcome(cal, maxSignalChanges, r, a, b, Snapshot(), gcDays);
    }

    /** `update_signals`. */
    method UpdateSignals(start: int, end: int, signals_: seq<SignalId>, states: seq<StateNo>, gcDays: DayIndexes) returns (r: Result<()>)
      requires Valid() && gcDays.Keys == days.Keys
      modifies this`points, this`dirty, this`days
      ensures Valid()
      ensures r.Ok? <==> Accepts(signals_, states)
      ensures r.Err? || end <= start ==> Snapshot() == old(Snapshot())
      ensures r.Ok? && start < end ==>
                UpdateSpec(cal, maxSignalChanges, Request(start, end, signals_, states), old(Snapshot()), Snapshot())
      ensures Typed(old(points), signals, types) ==> Typed(points, signals, types)
    {
      ghost var a := Snapshot();
      var ok := Validate(signals_, states);
      if !ok {
        return Err;
      }
      if start < end {
        var r := Request(start, end, signals_, states);
        UpdateAndCollect(r, gcDays);
        if Typed(a.points, signals, types) {
          UpdateTyped(cal, maxSignalChanges, r, a, Snapshot(), signals, types);
        }
      }
      return Ok(());
    }
  }

  /** `State::gc` on the store's fields. */
  method Collect(max: Option<nat>, a: Stage, gcDays: DayIndexes, ghost ids: set<SignalId>) returns (b: Stage)
    requires Chained(a.points) && Silent(a.points, ids) && gcDays.Keys == a.days.Keys
    ensures Chained(b.points) && Silent(b.points, ids) && b.days.Keys == a.days.Keys
    ensures GcSpec(max, a, b, gcDays)
  {
    assert ValidPoints(a.points);
    hide Collected, DirtyCovers, DebugPasses, Chained, Silent, ValidPoint;
    if !GcDue(max, a.points) {
      CoversSelf(a.points, a.dirty);
      return a;
    }
    var points, dirty := CollectPoints(a.points, a.dirty, max.value, ids);
    return Stage(points, dirty, gcDays);
  }

  /** What garbage collection does to a store. */
  ghost predicate GcSpec(max: Option<nat>, a: Stage, b: Stage, gcDays: DayIndexes) {
    && ValidPoints(a.points) && ValidPoints(b.points)
    && (if GcDue(max, a.points) then Collected(a.points, b.points, max.value) else b.points == a.points)
    && a.dirty <= b.dirty && DirtyCovers(a.points, b.points, b.dirty)
    && (DebugPasses(a.points) ==> DebugPasses(b.points))
    && b.days == if GcDue(max, a.points) then gcDays else a.days
  }

  /** Every state that the store gives a signal is 0, unknown, or one of its type's states. */
  ghost predicate Typed(points: Points, signals: map<SignalId, int>, types: map<int, set<StateNo>>) {
    ValidPoints(points) && forall t, s :: StateBefore(points, t, s) == 0 || OfType(s, StateBefore(points, t, s), signals, types)
  }

  predicate OfType(s: SignalId, state: StateNo, signals: map<SignalId, int>, types: map<int, set<StateNo>>) {
    s in signals && signals[s] in types && state in types[signals[s]]
  }

  /** An update of known signals to states of their types keeps it so. */
  lemma UpdateTyped(cal: Calendar, max: Option<nat>, r: Request, a: Stage, b: Stage, signals: map<SignalId, int>, types: map<int, set<StateNo>>)
    requires UpdateSpec(cal, max, r, a, b) && Typed(a.points, signals, types)
    requires forall i | 0 <= i < |r.signals| :: OfType(r.signals[i], r.states[i], signals, types)
    ensures Typed(b.points, signals, types)
  {
    hide Before, Exact, DebugPasses, Chained, Silent, DirtyCovers;
    forall t, s ensures StateBefore(b.points, t, s) == 0 || OfType(s, StateBefore(b.points, t, s), signals, types) {
      if s in r.signals {
        var i :| 0 <= i < |r.signals| && r.signals[i] == s;
        ZipAt(r.signals, r.states, i);
      }
      assert StateBefore(a.points, t, s) == 0 || OfType(s, StateBefore(a.points, t, s), signals, types);
    }
  }

  predicate GcDue(max: Option<nat>, points: Points) {
    max.Some? && |points| >= max.value
  }

  /** The store holds as many points as it may: garbage collection has run. */
  ghost predicate AtLimit(max: Option<nat>, points: Points) {
    max.Some? && |points| == max.value
  }

  /** Garbage collection has dropped what was known before t. */
  ghost predicate Forgotten(max: Option<nat>, points: Points, t: int) {
    AtLimit(max, points) && forall u | u in points :: t <= u
  }

  /** The store after each of the three steps. */
  datatype Stage = Stage(points: Points, dirty: set<int>, days: DayIndexes)

  ghost predicate PatchSteps(cal: Calendar, r: Request, f: int -> int, a: Stage, b: Stage, c: Stage, d: Stage) {
    && ValidCalendar(cal) && Chained(a.points) && ValidRequest(r, a.days.Keys)
    && EndSpec(a.points, a.dirty, b.points, b.dirty, r.end, Upd(r))
    && EndDays(cal, a.days, b.days, Upd(r), LastPoint(a.points, r.start, r.end), r.end, a.points)
    && StartSpec(b.points, b.dirty, c.points, c.dirty, r.start, Upd(r)) && c.days == b.days
    && MiddleInv(cal, r, a.days.Keys, f, c.points, c.dirty, c.days, d.points, d.dirty, d.days, LastPoint(c.points, r.start, r.end), {})
    && (r.signals != [] ==> f == AfterEnd(r, a.points, r.signals[0]))
  }

  lemma PatchState(cal: Calendar, r: Request, f: int -> int, a: Stage, b: Stage, c: Stage, d: Stage)
    requires PatchSteps(cal, r, f, a, b, c, d)
    ensures Chained(d.points) && d.days.Keys == a.days.Keys
    ensures forall t, s :: StateBefore(d.points, t, s) == Desired(ChangesOf(a.points), r.start, r.end, Upd(r), t, s)
  {
    StepsUpdate(a.points, b.points, c.points, d.points, r.start, r.end, Upd(r));
  }

  lemma PatchSilent(r: Request, ids: set<SignalId>, p0: Points, p3: Points)
    requires ValidPoints(p0) && Silent(p0, ids) && ValidRequest(r, ids) && ValidPoints(p3)
    requires forall t, s :: StateBefore(p3, t, s) == Desired(ChangesOf(p0), r.start, r.end, Upd(r), t, s)
    ensures Silent(p3, ids)
  {
    forall t, s | s !in ids
      ensures StateBefore(p3, t, s) == 0
    {
      assert StateBefore(p0, t, s) == 0 && s !in Upd(r);
    }
  }

  lemma PatchDirty(cal: Calendar, r: Request, f: int -> int, a: Stage, b: Stage, c: Stage, d: Stage)
    requires PatchSteps(cal, r, f, a, b, c, d)
    ensures ValidPoints(d.points) && a.dirty <= d.dirty && DirtyCovers(a.points, d.points, d.dirty)
  {
    CoversThrough(a.points, b.points, c.points, b.dirty, c.dirty);
    CoversThrough(a.points, c.points, d.points, c.dirty, d.dirty);
  }

  lemma PatchDebug(cal: Calendar, r: Request, f: int -> int, a: Stage, b: Stage, c: Stage, d: Stage)
    requires PatchSteps(cal, r, f, a, b, c, d)
    ensures ValidPoints(d.points)
    ensures DebugPasses(a.points) ==> (DebugPasses(d.points) <==> ZeroesKnown(r, a.points))
  {
    if DebugPasses(a.points) {
      DebugExactly(a.points);
      StepsDebug(a.points, b.points, c.points, d.points, c.dirty, d.dirty, r);
    }
  }

  lemma PatchDays(cal: Calendar, r: Request, f: int -> int, a: Stage, b: Stage, c: Stage, d: Stage, s: SignalId)
    requires PatchSteps(cal, r, f, a, b, c, d) && s in a.days && Exact(cal, a.points, a.days, s)
    requires ValidPoints(d.points) && d.days.Keys == a.days.Keys
    requires forall t :: StateBefore(d.points, t, s) == Desired(ChangesOf(a.points), r.start, r.end, Upd(r), t, s)
    ensures Exact(cal, d.points, d.days, s) <==> IndexFollows(r, a.points, s)
  {
    SameLastPoint(a.points, b.points, c.points, r.start, r.end);
    UpdateDays(cal, r, a.points, d.points, a.days, b.days, d.days, f, s);
  }

  /** What `update_signals` promises. Inside the interval the given signals take the given states,
      every other signal and time is unchanged except for what garbage collection forgets, the chain
      of previous states holds again, all changes are dirty, the debug build's check passes if the
      update allows it, and exact day indexes follow as far as the source moves them. */
  ghost predicate UpdateSpec(cal: Calendar, max: Option<nat>, r: Request, a: Stage, b: Stage) {
    && Passed(r) && ValidPoints(a.points) && ValidPoints(b.points) && a.days.Keys == b.days.Keys
    && Chained(b.points) && Silent(b.points, b.days.Keys)
    && (max.Some? ==> |b.points| <= max.value)
    && (forall t, s :: StateBefore(b.points, t, s) ==
          if Forgotten(max, b.points, t) then 0 else Desired(ChangesOf(a.points), r.start, r.end, Upd(r), t, s))
    && a.dirty <= b.dirty && DirtyCovers(a.points, b.points, b.dirty)
    && (!AtLimit(max, b.points) ==>
          && (forall s | s in a.days && Exact(cal, a.points, a.days, s) ::
                Exact(cal, b.points, b.days, s) <==> IndexFollows(r, a.points, s))
          && (DebugPasses(a.points) ==> (DebugPasses(b.points) <==> ZeroesKnown(r, a.points))))
    && (DebugPasses(a.points) && ZeroesKnown(r, a.points) ==> DebugPasses(b.points))
  }

  /** What garbage collection makes of the state an update arranged. */
  lemma GcAfter(max: Option<nat>, c0: ChangeMap, r: Request, p1: Points, p2: Points, t: int, s: SignalId)
    requires ValidPoints(p1) && ValidPoints(p2) && Passed(r)
    requires StateBefore(p1, t, s) == Desired(c0, r.start, r.end, Upd(r), t, s)
    requires if GcDue(max, p1) then Collected(p1, p2, max.value) else p2 == p1
    ensures StateBefore(p2, t, s) == if Forgotten(max, p2, t) then 0 else Desired(c0, r.start, r.end, Upd(r), t, s)
  {
    if !GcDue(max, p1) {
      assert !AtLimit(max, p2);
    }
  }

  lemma UpdateOutcome(cal: Calendar, max: Option<nat>, r: Request, a: Stage, b: Stage, c: Stage, gcDays: DayIndexes)
    requires Passed(r) && ValidPoints(a.points) && ValidPoints(b.points) && Chained(c.points)
    requires a.days.Keys == b.days.Keys == c.days.Keys && Silent(c.points, c.days.Keys)
    requires forall t, s :: StateBefore(b.points, t, s) == Desired(ChangesOf(a.points), r.start, r.end, Upd(r), t, s)
    requires a.dirty <= b.dirty && DirtyCovers(a.points, b.points, b.dirty) && GcSpec(max, b, c, gcDays)
    requires forall s | s in a.days && Exact(cal, a.points, a.days, s) ::
               Exact(cal, b.points, b.days, s) <==> IndexFollows(r, a.points, s)
    requires DebugPasses(a.points) ==> (DebugPasses(b.points) <==> ZeroesKnown(r, a.points))
    ensures UpdateSpec(cal, max, r, a, c)
  {
    CoversThrough(a.points, b.points, c.points, b.dirty, c.dirty);
    forall t, s
      ensures StateBefore(c.points, t, s) ==
                if Forgotten(max, c.points, t) then 0 else Desired(ChangesOf(a.points), r.start, r.end, Upd(r), t, s)
    {
      GcAfter(max, ChangesOf(a.points), r, b.points, c.points, t, s);
    }
  }
}
