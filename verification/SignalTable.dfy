/** Write-behind of the signal store to its table, and loading it back
    (server/db/signal.rs:627-657 and 732-788). */
module SignalTable {
  import opened Base
  import opened IntSets
  import opened Days
  import opened SignalPoint
  import opened SignalTimeline
  import opened SignalUpdate
  import opened SignalDebug
  import opened SignalIndex

  /** The `signal_change` table: serialized changes by time. */
  type Table = map<int, Bytes>

  ghost predicate RowsParse(table: Table) {
    forall t | t in table :: ParseMap(table[t]).Ok?
  }

  ghost function RowChanges(table: Table): ChangeMap
    requires RowsParse(table)
  {
    map t | t in table :: ParseMap(table[t]).value
  }

  // -- flushing ----------------------------------------------------------------------------

  /** The row at a time that is not dirty says what the store says; a row without changes may be
      left over. */
  ghost predicate RowSynced(table: Table, points: Points, t: int)
    requires ValidPoints(points)
  {
    if t in points then t in table && ParseMap(table[t]) == Ok(Changes(points[t]))
    else t in table ==> ParseMap(table[t]) == Ok(map[])
  }

  /** Every difference between the table and the store is at a dirty time. */
  ghost predicate Synced(table: Table, points: Points, dirty: set<int>) {
    ValidPoints(points) && forall t | t !in dirty :: RowSynced(table, points, t)
  }

  /** Mutations whose differences are dirty keep the table in step. */
  lemma SyncedKept(table: Table, p0: Points, d0: set<int>, p1: Points, d1: set<int>)
    requires Synced(table, p0, d0) && ValidPoints(p1) && d0 <= d1 && DirtyCovers(p0, p1, d1)
    ensures Synced(table, p1, d1)
  {
    forall t | t !in d1 ensures RowSynced(table, p1, t) {
      assert RowSynced(table, p0, t);
    }
  }

  /** `flush`: inserts or deletes the row of every dirty time. */
  method Flush(table: Table, points: Points, dirty: set<int>) returns (table1: Table)
    requires Synced(table, points, dirty)
    ensures Synced(table1, points, {})
    ensures forall t | t !in dirty :: (t in table1 <==> t in table) && (t in table ==> table1[t] == table[t])
  {
    table1 := table;
    var todo := dirty;
    while todo != {}
      invariant todo <= dirty && Synced(table1, points, todo)
      invariant forall t | t !in dirty :: (t in table1 <==> t in table) && (t in table ==> table1[t] == table[t])
      decreases todo
    {
      var t := MinOf(todo);
      var next := if t in points then table1[t := points[t].data[points[t].changesOff..]] else table1 - {t};
      forall u | u !in todo - {t} ensures RowSynced(next, points, u) {
        assert u != t ==> RowSynced(table1, points, u);
      }
      table1 := next;
      todo := todo - {t};
    }
  }

  // -- loading -----------------------------------------------------------------------------

  /** A signal's state counted up to time `settled`, and 0 from there on. */
  ghost function Settled(points: Points, s: SignalId, settled: int): int -> int
    requires ValidPoints(points)
  {
    t => if t < settled then StateFn(points, s)(t) else 0
  }

  /** Since when a signal that is not unknown has had its state. */
  type Last = Option<(int, StateNo)>

  ghost function SettledUntil(last: Last, bound: int): int {
    if last.Some? then last.value.0 else bound
  }

  ghost function LastState(last: Last): StateNo {
    if last.Some? then last.value.1 else 0
  }

  /** The rows before `bound` leave a signal in its last state since its last change. */
  ghost predicate Tracks(points: Points, bound: int, s: SignalId, last: Last)
    requires ValidPoints(points)
  {
    && (last.Some? ==> last.value.1 != 0 && last.value.0 < bound)
    && (forall t | SettledUntil(last, bound) < t <= bound :: StateBefore(points, t, s) == LastState(last))
    && StateBefore(points, bound, s) == LastState(last)
  }

  /** Its day index counts what went before. */
  ghost predicate Indexes(cal: Calendar, points: Points, bound: int, s: SignalId, last: Last, day: Option<SignalDays>)
    requires ValidPoints(points)
  {
    IndexOf(cal, day, Settled(points, s, SettledUntil(last, bound)))
  }

  /** The new row's place: everything before `bound` is loaded, nothing lies between. */
  ghost predicate Extends(points: Points, bound: int, t: int, p: Point, points1: Points) {
    && ValidPoints(points) && ValidPoint(p) && bound <= t && (forall u | u in points :: u < bound)
    && points1 == points[t := p]
  }

  lemma FrontBefore(points: Points, bound: int, t: int, p: Point, points1: Points, s: SignalId, u: int)
    requires Extends(points, bound, t, p, points1) && u <= t
    ensures StateBefore(points1, u, s) == StateBefore(points, Min(u, bound), s)
  {
    var c, c1 := ChangesOf(points), ChangesOf(points1);
    BeforeAgree(c1, c, u, s);
    if bound < u {
      BeforeConstant(c, bound, u, s);
    }
  }

  lemma FrontAfter(points: Points, bound: int, t: int, p: Point, points1: Points, s: SignalId)
    requires Extends(points, bound, t, p, points1)
    ensures StateBefore(points1, t + 1, s) == Applied(StateBefore(points, bound, s), ChangeIn(Changes(p), s))
  {
    FrontBefore(points, bound, t, p, points1, s, t);
    BeforeStep(ChangesOf(points1), t, s);
    assert ChangeAt(ChangesOf(points1), t, s) == ChangeIn(Changes(p), s);
  }

  /** What a row at time t makes of a signal's last change. */
  function NextLast(last: Last, change: Option<StateNo>, t: int): Last {
    match change
    case None => last
    case Some(state) => if state == 0 then None else Some((t, state))
  }

  lemma TracksRow(points: Points, bound: int, t: int, p: Point, points1: Points, s: SignalId, last: Last)
    requires Extends(points, bound, t, p, points1) && Tracks(points, bound, s, last)
    ensures Tracks(points1, t + 1, s, NextLast(last, ChangeIn(Changes(p), s), t))
  {
    hide Before;
    var next := NextLast(last, ChangeIn(Changes(p), s), t);
    FrontAfter(points, bound, t, p, points1, s);
    forall u | SettledUntil(next, t + 1) < u <= t + 1
      ensures StateBefore(points1, u, s) == LastState(next)
    {
      if u <= t {
        FrontBefore(points, bound, t, p, points1, s, u);
        assert next == last && StateBefore(points, Min(u, bound), s) == LastState(last);
      }
    }
  }

  /** What a row does to a signal's day index: if the signal was not unknown, the stretch since its
      last change is counted. */
  ghost predicate DayRow(cal: Calendar, last: Last, changed: bool, t: int, day: Option<SignalDays>, day1: Option<SignalDays>) {
    if changed && last.Some? then DayStep(cal, day, last.value.0, t, 0, last.value.1, day1) else day1 == day
  }

  lemma IndexesRow(cal: Calendar, points: Points, bound: int, t: int, p: Point, points1: Points, s: SignalId,
                   last: Last, day: Option<SignalDays>, day1: Option<SignalDays>)
    requires ValidCalendar(cal) && Extends(points, bound, t, p, points1) && Tracks(points, bound, s, last)
    requires Indexes(cal, points, bound, s, last, day) && DayRow(cal, last, ChangeIn(Changes(p), s).Some?, t, day, day1)
    ensures Indexes(cal, points1, t + 1, s, NextLast(last, ChangeIn(Changes(p), s), t), day1)
  {
    var next := NextLast(last, ChangeIn(Changes(p), s), t);
    var f, g := Settled(points, s, SettledUntil(last, bound)), Settled(points1, s, SettledUntil(next, t + 1));
    if ChangeIn(Changes(p), s).Some? && last.Some? {
      var from, v := last.value.0, last.value.1;
      DayStepExact(cal, day, from, t, 0, v, day1, f);
      forall u ensures Overwrite(f, from, t, v as int)(u) == g(u) {
        SettledRow(points, bound, t, p, points1, s, last, u);
      }
      IndexSame(cal, day1, Overwrite(f, from, t, v as int), g);
    } else {
      forall u ensures f(u) == g(u) {
        SettledRow(points, bound, t, p, points1, s, last, u);
      }
      IndexSame(cal, day, f, g);
    }
  }

  lemma SettledRow(points: Points, bound: int, t: int, p: Point, points1: Points, s: SignalId, last: Last, u: int)
    requires Extends(points, bound, t, p, points1) && Tracks(points, bound, s, last)
    ensures var change := ChangeIn(Changes(p), s);
            Settled(points1, s, SettledUntil(NextLast(last, change, t), t + 1))(u) ==
              if change.Some? && last.Some? && last.value.0 <= u < t then last.value.1 as int
              else Settled(points, s, SettledUntil(last, bound))(u)
  {
    hide Before;
    assert StateFn(points1, s)(u) == StateBefore(points1, u + 1, s) as int;
    assert StateFn(points, s)(u) == StateBefore(points, u + 1, s) as int;
    if u == t {
      FrontAfter(points, bound, t, p, points1, s);
    } else if u < t {
      FrontBefore(points, bound, t, p, points1, s, u + 1);
      if SettledUntil(last, bound) <= u {
        assert StateBefore(points, Min(u + 1, bound), s) == LastState(last);
      }
    }
  }

  // -- one row -----------------------------------------------------------------------------

  /** What loading has built so far: the latest states that are not 0, when each was set, and the
      day indexes. */
  datatype Loading = Loading(cur: SigMap, last: map<SignalId, (int, StateNo)>, days: DayIndexes)

  function LastOf(a: Loading, s: SignalId): Last {
    if s in a.last then Some(a.last[s]) else None
  }

  /** The two maps name the same signals and states. */
  ghost predicate Agrees(a: Loading, s: SignalId) {
    (s in a.cur <==> s in a.last) && (s in a.cur ==> a.cur[s] == a.last[s].1)
  }

  ghost predicate RowAt(cal: Calendar, a: Loading, b: Loading, changes: SigMap, t: int, s: SignalId) {
    && LastOf(b, s) == NextLast(LastOf(a, s), ChangeIn(changes, s), t)
    && (Agrees(a, s) ==> Agrees(b, s))
    && (s in a.days && s in b.days ==> DayRow(cal, LastOf(a, s), s in changes, t, a.days[s], b.days[s]))
  }

  /** The changes of a row are applied, and none of them moved an unknown signal from a state. */
  ghost predicate RowDone(cal: Calendar, a: Loading, b: Loading, changes: SigMap, t: int) {
    && b.days.Keys == a.days.Keys
    && (forall s :: RowAt(cal, a, b, changes, t, s))
    && (forall s | s in changes && s in a.last :: s in a.days)
  }

  /** One change of a row: the day index counts the stretch that ends here. */
  method FillChange(cal: Calendar, a: Loading, t: int, e: Entry) returns (r: Result<Loading>)
    requires ValidCalendar(cal)
    ensures r.Ok? <==> e.signal in a.last ==> e.signal in a.days
    ensures r.Ok? ==> r.value.days.Keys == a.days.Keys && RowAt(cal, a, r.value, map[e.signal := e.state], t, e.signal)
    ensures r.Ok? ==> forall s | s != e.signal :: SameTrack(a, r.value, s)
  {
    var s, days := e.signal, a.days;
    if s in a.last {
      if s !in a.days {
        return Err;
      }
      if a.days[s].Some? {
        var d := AdjustSignal(cal, a.days[s].value, a.last[s].0, t, 0, a.last[s].1 as int);
        days := days[s := d];
      }
    }
    if e.state == 0 {
      return Ok(Loading(a.cur - {s}, a.last - {s}, days));
    }
    return Ok(Loading(a.cur[s := e.state], a.last[s := (t, e.state)], days));
  }

  ghost predicate SameTrack(a: Loading, b: Loading, s: SignalId) {
    && LastOf(b, s) == LastOf(a, s) && (Agrees(a, s) ==> Agrees(b, s))
    && (s in a.days && s in b.days ==> b.days[s] == a.days[s])
  }

  lemma RowDoneStep(cal: Calendar, a: Loading, b: Loading, c: Loading, changes: SigMap, t: int, e: Entry)
    requires RowDone(cal, a, b, changes, t) && e.signal !in changes && (e.signal in b.last ==> e.signal in b.days)
    requires c.days.Keys == b.days.Keys && RowAt(cal, b, c, map[e.signal := e.state], t, e.signal)
    requires forall s | s != e.signal :: SameTrack(b, c, s)
    ensures RowDone(cal, a, c, changes[e.signal := e.state], t)
  {
    var next := changes[e.signal := e.state];
    assert RowAt(cal, a, b, changes, t, e.signal);
    forall s ensures RowAt(cal, a, c, next, t, s) {
      assert RowAt(cal, a, b, changes, t, s);
      assert s != e.signal ==> SameTrack(b, c, s);
    }
    forall s | s in next && s in a.last ensures s in a.days {
      assert s == e.signal ==> LastOf(b, s) == LastOf(a, s);
    }
  }

  lemma RowNone(cal: Calendar, a: Loading, t: int)
    ensures RowDone(cal, a, a, map[], t)
  {
    var none: SigMap := map[];
    forall s ensures RowAt(cal, a, a, none, t, s) {
    }
  }

  lemma RowUntouched(cal: Calendar, a: Loading, b: Loading, changes: SigMap, t: int, s: SignalId)
    requires RowDone(cal, a, b, changes, t) && s !in changes
    ensures (s in b.last <==> s in a.last) && (s in b.days <==> s in a.days)
  {
    assert RowAt(cal, a, b, changes, t, s);
    assert LastOf(b, s) == LastOf(a, s);
  }

  /** A row that does not parse, or ends the state of a signal the store does not know. */
  ghost predicate BadRow(a: Loading, changes: Bytes) {
    match ParseMap(changes)
    case Err => true
    case Ok(m) => exists s :: s in m && s in a.last && s !in a.days
  }

  /** The loop over one row's changes. */
  method FillRow(cal: Calendar, a: Loading, t: int, changes: Bytes) returns (r: Result<Loading>)
    requires ValidCalendar(cal)
    ensures r.Err? ==> BadRow(a, changes)
    ensures r.Ok? ==> ParseMap(changes).Ok? && RowDone(cal, a, r.value, ParseMap(changes).value, t)
  {
    RowNone(cal, a, t);
    hide RowAt, SameTrack, RowDone, ParseFrom;
    var it := new PointDataIterator(changes);
    ghost var out: SigMap := map[];
    var b := a;
    if it.Rest().Ok? {
      assert out + ToMap(it.Rest().value) == ToMap(it.Rest().value);
    }
    while true
      invariant it.Valid() && it.data == changes && fresh(it)
      invariant ParseMap(changes) == match it.Rest() case Err => Err case Ok(es) => Ok(out + ToMap(es))
      invariant forall s | s in out :: s as int < it.curSignal
      invariant RowDone(cal, a, b, out, t)
      decreases |changes| - it.curPos
    {
      var n := it.Next();
      if n.Err? {
        return Err;
      }
      if n.value.None? {
        assert out + ToMap([]) == out;
        return Ok(b);
      }
      var e := n.value.value;
      if it.Rest().Ok? {
        InsertThenRest(out, e, it.Rest().value);
      }
      RowUntouched(cal, a, b, out, t, e.signal);
      var c := FillChange(cal, b, t, e);
      if c.Err? {
        assert it.Rest().Ok? ==> e.signal in ParseMap(changes).value;
        return Err;
      }
      RowDoneStep(cal, a, b, c.value, out, t, e);
      b := c.value;
      out := out[e.signal := e.state];
    }
  }

  // -- all rows ----------------------------------------------------------------------------

  /** The rows at times in `todo` are still to be read; all others are points. */
  ghost predicate Loaded(table: Table, todo: set<int>, bound: int, points: Points) {
    && ValidPoints(points) && todo <= table.Keys && points.Keys == table.Keys - todo
    && (forall t | t in todo :: bound <= t)
    && (forall t | t in points :: t < bound && ParseMap(table[t]) == Ok(Changes(points[t])) && PrevOk(points, t))
    && (points != map[] ==> bound - 1 in points)
  }

  /** One signal's entries are right for the rows before `bound`; a signal the store does not know
      has been unknown unless it still is not. */
  ghost predicate SignalLoaded(cal: Calendar, points: Points, bound: int, a: Loading, s: SignalId)
    requires ValidPoints(points)
  {
    && Agrees(a, s) && Tracks(points, bound, s, LastOf(a, s))
    && (s in a.days ==> Indexes(cal, points, bound, s, LastOf(a, s), a.days[s]))
    && (s !in a.days && s !in a.last ==> forall t | t <= bound :: StateBefore(points, t, s) == 0)
  }

  ghost predicate SignalsLoaded(cal: Calendar, points: Points, bound: int, a: Loading)
    requires ValidPoints(points)
  {
    forall s :: SignalLoaded(cal, points, bound, a, s)
  }

  lemma SignalRow(cal: Calendar, points: Points, bound: int, t: int, p: Point, points1: Points, a: Loading, b: Loading, s: SignalId)
    requires ValidCalendar(cal) && Extends(points, bound, t, p, points1)
    requires SignalLoaded(cal, points, bound, a, s) && RowDone(cal, a, b, Changes(p), t)
    ensures SignalLoaded(cal, points1, t + 1, b, s)
  {
    hide Before, Tracks, Indexes;
    var changes, last := Changes(p), LastOf(a, s);
    assert RowAt(cal, a, b, changes, t, s);
    TracksRow(points, bound, t, p, points1, s, last);
    if s in a.days {
      IndexesRow(cal, points, bound, t, p, points1, s, last, a.days[s], b.days[s]);
    } else if s !in b.last {
      SilentRow(points, bound, t, p, points1, s, last);
    }
  }

  lemma SilentRow(points: Points, bound: int, t: int, p: Point, points1: Points, s: SignalId, last: Last)
    requires Extends(points, bound, t, p, points1) && Tracks(points, bound, s, last) && last == None
    requires NextLast(last, ChangeIn(Changes(p), s), t) == None
    requires forall u | u <= bound :: StateBefore(points, u, s) == 0
    ensures forall u | u <= t + 1 :: StateBefore(points1, u, s) == 0
  {
    hide Before;
    forall u | u <= t + 1 ensures StateBefore(points1, u, s) == 0 {
      if u <= t {
        FrontBefore(points, bound, t, p, points1, s, u);
      } else {
        FrontAfter(points, bound, t, p, points1, s);
      }
    }
  }

  lemma LoadedRow(table: Table, todo: set<int>, bound: int, points: Points, t: int, prev: SigMap, points1: Points)
    requires Loaded(table, todo, bound, points) && IsMin(t, todo)
    requires ParseMap(table[t]).Ok? && points1 == points[t := NewPoint(prev, table[t])]
    requires forall s :: Get(prev, s) == StateBefore(points, bound, s)
    ensures Loaded(table, todo - {t}, t + 1, points1)
  {
    hide Before;
    hide PrevOk, ParseFrom;
    var p := NewPoint(prev, table[t]);
    assert points1.Keys == table.Keys - (todo - {t});
    assert p.data[p.changesOff..] == table[t];
    hide ParseMap, ValidPoint;
    forall u | u in points1 ensures PrevOk(points1, u) {
      assert u != t ==> PrevOk(points, u);
      LoadedPrev(points, bound, t, p, points1, u);
    }
  }

  lemma LoadedPrev(points: Points, bound: int, t: int, p: Point, points1: Points, u: int)
    requires Extends(points, bound, t, p, points1) && u in points1 && (u != t ==> PrevOk(points, u))
    requires forall s :: Get(Prev(p), s) == StateBefore(points, bound, s)
    ensures PrevOk(points1, u)
  {
    hide Before;
    forall s ensures Get(Prev(points1[u]), s) == StateBefore(points1, u, s) {
      FrontBefore(points, bound, t, p, points1, s, u);
    }
  }

  /** What a table must be for the store to load: rows that parse, every signal unknown in the far
      future, and signals the store does not know unknown throughout. */
  ghost predicate Loadable(table: Table, ids: set<SignalId>) {
    && RowsParse(table)
    && EndsUnknown(RowChanges(table))
    && forall t, s | s !in ids :: Before(RowChanges(table), t, s) == 0
  }

  /** An unknown signal that leaves a state makes the table unloadable. */
  lemma UnknownSignal(cal: Calendar, table: Table, ids: set<SignalId>, todo: set<int>, bound: int, points: Points, a: Loading, s: SignalId)
    requires Loaded(table, todo, bound, points) && SignalsLoaded(cal, points, bound, a) && a.days.Keys == ids
    requires s in a.last && s !in ids
    ensures !Loadable(table, ids)
  {
    hide Before;
    if RowsParse(table) {
      assert SignalLoaded(cal, points, bound, a, s);
      assert StateBefore(points, bound, s) != 0;
      BeforeAgree(RowChanges(table), ChangesOf(points), bound, s);
    }
  }

  lemma LoadedChanges(table: Table, bound: int, points: Points)
    requires Loaded(table, {}, bound, points)
    ensures RowsParse(table) && RowChanges(table) == ChangesOf(points)
  {
    hide Before, PrevOk, ParseMap, Changes, ValidPoint;
    assert table.Keys == points.Keys;
    forall t | t in table ensures ParseMap(table[t]) == Ok(Changes(points[t])) {
      assert t in points;
    }
    assert RowChanges(table).Keys == ChangesOf(points).Keys;
  }

  /** With no state left at the end the load succeeds. */
  lemma LoadEnd(cal: Calendar, table: Table, ids: set<SignalId>, bound: int, points: Points, a: Loading)
    requires Loaded(table, {}, bound, points) && SignalsLoaded(cal, points, bound, a) && a.days.Keys == ids
    requires a.cur == map[]
    ensures RowsParse(table) && RowChanges(table) == ChangesOf(points)
    ensures Loadable(table, ids) && Chained(points) && Silent(points, ids)
    ensures forall s | s in ids :: Exact(cal, points, a.days, s)
  {
    hide Before;
    LoadedChanges(table, bound, points);
    var c := RowChanges(table);
    forall t, s | bound <= t ensures StateBefore(points, t, s) == 0 {
      assert SignalLoaded(cal, points, bound, a, s);
      BeforeConstant(ChangesOf(points), bound, t, s);
    }
    LoadedEnds(table, bound, points);
    forall t, s | s !in ids ensures Before(c, t, s) == 0 {
      assert SignalLoaded(cal, points, bound, a, s);
      assert StateBefore(points, t, s) == 0;
    }
    forall s | s in ids ensures Exact(cal, points, a.days, s) {
      LoadedIndex(cal, points, bound, a, s);
    }
  }

  lemma LoadedIndex(cal: Calendar, points: Points, bound: int, a: Loading, s: SignalId)
    requires ValidPoints(points) && SignalLoaded(cal, points, bound, a, s) && s !in a.last && s in a.days
    requires forall t | bound <= t :: StateBefore(points, t, s) == 0
    ensures Exact(cal, points, a.days, s)
  {
    hide Before;
    var f := StateFn(points, s);
    forall t ensures Settled(points, s, bound)(t) == f(t) {
      assert f(t) == StateBefore(points, t + 1, s) as int;
    }
    IndexSame(cal, a.days[s], Settled(points, s, bound), f);
  }

  /** A state left at the end makes the table unloadable. */
  lemma LoadStuck(cal: Calendar, table: Table, ids: set<SignalId>, bound: int, points: Points, a: Loading)
    requires Loaded(table, {}, bound, points) && SignalsLoaded(cal, points, bound, a)
    requires a.cur != map[]
    ensures !Loadable(table, ids)
  {
    hide Before;
    LoadedChanges(table, bound, points);
    var s :| s in a.cur;
    assert SignalLoaded(cal, points, bound, a, s);
    assert StateBefore(points, bound, s) == LastState(LastOf(a, s));
    NotEnded(ChangesOf(points), bound, s);
  }

  lemma NotEnded(c: ChangeMap, t: int, s: SignalId)
    requires (forall u | u in c :: u < t) && Before(c, t, s) != 0
    ensures !EndsUnknown(c)
  {
  }

  lemma LoadedEnds(table: Table, bound: int, points: Points)
    requires Loaded(table, {}, bound, points)
    requires forall t, s | bound <= t :: StateBefore(points, t, s) == 0
    ensures EndsUnknown(ChangesOf(points))
  {
    forall t, s | forall u | u in ChangesOf(points) :: u < t
      ensures Before(ChangesOf(points), t, s) == 0
    {
      if points == map[] {
        BeforeLow(ChangesOf(points), t, s);
      } else {
        assert bound - 1 in ChangesOf(points);
        assert StateBefore(points, t, s) == 0;
      }
    }
  }

  /** `fill_points`, from empty day indexes. */
  method FillPoints(cal: Calendar, ids: set<SignalId>, table: Table) returns (r: Result<(Points, DayIndexes)>)
    requires ValidCalendar(cal)
    ensures r.Ok? <==> Loadable(table, ids)
    ensures r.Ok? ==>
              && Chained(r.value.0) && ChangesOf(r.value.0) == RowChanges(table) && Silent(r.value.0, ids)
              && r.value.1.Keys == ids && (forall s | s in ids :: Exact(cal, r.value.0, r.value.1, s))
              && DebugPasses(r.value.0)
  {
    var points: Points := map[];
    var a := Loading(map[], map[], map s | s in ids :: Some(map[]));
    var todo := table.Keys;
    var bound := if todo == {} then 0 else MinOf(todo);
    FillStart(cal, bound, a);
    while todo != {}
      invariant Loaded(table, todo, bound, points) && a.days.Keys == ids
      invariant SignalsLoaded(cal, points, bound, a) && Strict(points)
      decreases todo
    {
      var t := MinOf(todo);
      var row := FillRow(cal, a, t, table[t]);
      if row.Err? {
        RowFails(cal, table, ids, todo, bound, points, a, t);
        return Err;
      }
      var p := NewPoint(a.cur, table[t]);
      RowLoads(cal, table, todo, bound, points, a, t, row.value);
      RowStrict(cal, points, bound, a, t, p);
      points, a := points[t := p], row.value;
      todo, bound := todo - {t}, t + 1;
    }
    if a.cur != map[] {
      LoadStuck(cal, table, ids, bound, points, a);
      return Err;
    }
    LoadEnd(cal, table, ids, bound, points, a);
    DebugExactly(points);
    return Ok((points, a.days));
  }

  /** What loading remembers before a row has no explicit zeros. */
  lemma RowStrict(cal: Calendar, points: Points, bound: int, a: Loading, t: int, p: Point)
    requires ValidPoints(points) && SignalsLoaded(cal, points, bound, a) && Strict(points) && ValidPoint(p) && Prev(p) == a.cur
    ensures ValidPoints(points[t := p]) && Strict(points[t := p])
  {
    hide Before;
    forall s | s in a.cur ensures a.cur[s] != 0 {
      assert SignalLoaded(cal, points, bound, a, s);
    }
  }

  lemma FillStart(cal: Calendar, bound: int, a: Loading)
    requires a.cur == map[] && a.last == map[] && forall s | s in a.days :: a.days[s] == Some(map[])
    ensures SignalsLoaded(cal, map[], bound, a)
  {
    var none: Points := map[];
    forall s ensures SignalLoaded(cal, none, bound, a, s) {
      forall t ensures StateBefore(none, t, s) == 0 {
        BeforeLow(ChangesOf(none), t, s);
      }
      if s in a.days {
        forall t ensures Settled(none, s, bound)(t) == 0 {
          assert StateBefore(none, t + 1, s) == 0;
          assert StateFn(none, s)(t) == 0;
        }
        CountNone(cal, Settled(none, s, bound));
      }
    }
  }

  lemma CountNone(cal: Calendar, f: int -> int)
    requires forall t :: f(t) == 0
    ensures IndexOf(cal, Some(map[]), f)
  {
    var none: SignalDays := map[];
    forall k: int, s: nat | s >= 1
      ensures DayTime(none, k, s) == Count(f, cal.start(k), cal.start(k + 1), s)
    {
      CountZero(f, cal.start(k), cal.start(k + 1), s);
    }
  }

  lemma {:induction false} CountZero(f: int -> int, lo: int, hi: int, v: int)
    requires v != 0 && forall t :: f(t) == 0
    ensures Count(f, lo, hi, v) == 0
    decreases hi - lo
  {
    if lo < hi {
      CountZero(f, lo, hi - 1, v);
    }
  }

  lemma RowFails(cal: Calendar, table: Table, ids: set<SignalId>, todo: set<int>, bound: int, points: Points, a: Loading, t: int)
    requires Loaded(table, todo, bound, points) && SignalsLoaded(cal, points, bound, a) && a.days.Keys == ids && t in todo
    requires BadRow(a, table[t])
    ensures !Loadable(table, ids)
  {
    if ParseMap(table[t]).Ok? {
      var s :| s in ParseMap(table[t]).value && s in a.last && s !in a.days;
      UnknownSignal(cal, table, ids, todo, bound, points, a, s);
    }
  }

  lemma RowLoads(cal: Calendar, table: Table, todo: set<int>, bound: int, points: Points, a: Loading, t: int, b: Loading)
    requires ValidCalendar(cal) && Loaded(table, todo, bound, points) && SignalsLoaded(cal, points, bound, a)
    requires IsMin(t, todo) && ParseMap(table[t]).Ok? && RowDone(cal, a, b, ParseMap(table[t]).value, t)
    ensures var points1 := points[t := NewPoint(a.cur, table[t])];
            Loaded(table, todo - {t}, t + 1, points1) && SignalsLoaded(cal, points1, t + 1, b)
  {
    var p, next := NewPoint(a.cur, table[t]), t + 1;
    var points1 := points[t := p];
    forall s ensures Get(a.cur, s) == StateBefore(points, bound, s) {
      assert SignalLoaded(cal, points, bound, a, s);
    }
    LoadedRow(table, todo, bound, points, t, a.cur, points1);
    forall s ensures SignalLoaded(cal, points1, next, b, s) {
      assert SignalLoaded(cal, points, bound, a, s);
      SignalRow(cal, points, bound, t, p, points1, a, b, s);
    }
  }

  // -- the round trip ----------------------------------------------------------------------

  /** A store whose table is in step reloads to the same state function. */
  lemma ReloadSame(table: Table, points: Points, ids: set<SignalId>)
    requires Chained(points) && Silent(points, ids) && Synced(table, points, {})
    ensures Loadable(table, ids)
    ensures forall t, s :: Before(RowChanges(table), t, s) == StateBefore(points, t, s)
  {
    hide Before;
    forall t | t in table ensures ParseMap(table[t]).Ok? {
      assert RowSynced(table, points, t);
    }
    var c, c2 := RowChanges(table), ChangesOf(points);
    forall t, s ensures Before(c, t, s) == Before(c2, t, s) {
      forall u | u < t ensures ChangeAt(c, u, s) == ChangeAt(c2, u, s) {
        assert RowSynced(table, points, u);
      }
      BeforeAgree(c, c2, t, s);
    }
    SameEnds(c, c2);
    forall t, s | s !in ids ensures Before(c, t, s) == 0 {
      assert StateBefore(points, t, s) == 0;
    }
  }

  lemma SameEnds(c: ChangeMap, c2: ChangeMap)
    requires EndsUnknown(c2) && forall t, s :: Before(c, t, s) == Before(c2, t, s)
    ensures EndsUnknown(c)
  {
    hide Before;
    forall t, s | forall u | u in c :: u < t
      ensures Before(c, t, s) == 0
    {
      var hi := MaxOf(c2.Keys + {t}) + 1;
      assert t in c2.Keys + {t};
      forall u | u in c2 ensures u < hi {
        assert u in c2.Keys + {t};
      }
      assert Before(c2, hi, s) == 0;
      BeforeConstant(c, t, hi, s);
    }
  }
}
