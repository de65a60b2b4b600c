/** Whole runs of the signal store: loading, updates with their garbage collection, and flushes that
    commit or fail. */
module SignalRun {
  import opened Base
  import opened Days
  import opened SignalPoint
  import opened SignalTimeline
  import opened SignalUpdate
  import opened SignalDebug
  import opened SignalIndex
  import opened SignalTable
  import opened SignalStore

  /** The store in memory and its table. */
  datatype Machine = Machine(store: Stage, table: Table)

  /** The chain of previous states holds, signals the store does not know are unknown throughout,
      and memory and table differ at dirty times only. */
  ghost predicate InStep(m: Machine) {
    && Chained(m.store.points) && Silent(m.store.points, m.store.days.Keys)
    && Synced(m.table, m.store.points, m.store.dirty)
  }

  /** An update in memory; the table stays as it is. */
  ghost predicate Updates(cal: Calendar, max: Option<nat>, r: Request, a: Machine, b: Machine) {
    UpdateSpec(cal, max, r, a.store, b.store) && b.table == a.table
  }

  /** `flush`, then `post_flush` if the transaction commits. */
  ghost predicate Flushes(a: Machine, b: Machine) {
    || b == a
    || (b.store == a.store.(dirty := {}) && Synced(b.table, a.store.points, {}))
  }

  ghost predicate Steps(cal: Calendar, max: Option<nat>, a: Machine, b: Machine) {
    (exists r :: Updates(cal, max, r, a, b)) || Flushes(a, b)
  }

  // -- the methods take these steps --------------------------------------------------------

  /** `State::init`, as far as points and day indexes go. */
  method Load(cal: Calendar, ids: set<SignalId>, table: Table) returns (r: Result<Machine>)
    requires ValidCalendar(cal)
    ensures r.Ok? <==> Loadable(table, ids)
    ensures r.Ok? ==>
              && InStep(r.value) && r.value.store.days.Keys == ids && r.value.table == table
              && AllExact(cal, r.value.store) && DebugPasses(r.value.store.points)
              && forall t, s :: StateBefore(r.value.store.points, t, s) == Before(RowChanges(table), t, s)
  {
    var loaded := FillPoints(cal, ids, table);
    if loaded.Err? {
      return Err;
    }
    LoadedInStep(cal, table, loaded.value.0, loaded.value.1);
    return Ok(Machine(Stage(loaded.value.0, {}, loaded.value.1), table));
  }

  /** What loading returns is in step with the table it was loaded from. */
  lemma LoadedInStep(cal: Calendar, table: Table, points: Points, days: DayIndexes)
    requires RowsParse(table) && Chained(points) && ChangesOf(points) == RowChanges(table) && Silent(points, days.Keys)
    requires forall s | s in days :: Exact(cal, points, days, s)
    ensures InStep(Machine(Stage(points, {}, days), table)) && AllExact(cal, Stage(points, {}, days))
  {
    forall t ensures RowSynced(table, points, t) {
      assert t in points <==> t in ChangesOf(points);
      assert t in table <==> t in RowChanges(table);
      assert t in points ==> ChangesOf(points)[t] == RowChanges(table)[t];
    }
  }

  /** A store's update is a step of the machine. */
  method Update(state: State, ghost table: Table, r: Request, gcDays: DayIndexes)
    requires state.Valid() && gcDays.Keys == state.days.Keys && ValidRequest(r, state.signals.Keys)
    modifies state`points, state`dirty, state`days
    ensures state.Valid()
    ensures Updates(state.cal, state.maxSignalChanges, r, Machine(old(state.Snapshot()), table), Machine(state.Snapshot(), table))
  {
    state.UpdateAndCollect(r, gcDays);
  }

  /** A flush whose transaction commits or fails is a step of the machine. */
  method FlushStep(a: Machine, commits: bool) returns (b: Machine)
    requires Synced(a.table, a.store.points, a.store.dirty)
    ensures Flushes(a, b)
    ensures commits ==> b.store.dirty == {} && Synced(b.table, b.store.points, {})
  {
    if !commits {
      return a;
    }
    var table := Flush(a.table, a.store.points, a.store.dirty);
    return Machine(a.store.(dirty := {}), table);
  }

  // -- whole runs --------------------------------------------------------------------------

  lemma StepInStep(cal: Calendar, max: Option<nat>, a: Machine, b: Machine)
    requires InStep(a) && Steps(cal, max, a, b)
    ensures InStep(b) && b.store.days.Keys == a.store.days.Keys
  {
    hide Before, Exact, DebugPasses, Desired;
    if !Flushes(a, b) {
      SyncedKept(a.table, a.store.points, a.store.dirty, b.store.points, b.store.dirty);
    }
  }

  /** After any run, flushing the dirty times and loading the table gives the store's state
      function back. */
  lemma {:induction false} RunReloads(cal: Calendar, max: Option<nat>, run: seq<Machine>, table: Table)
    requires run != [] && InStep(run[0])
    requires forall i | 0 <= i < |run| - 1 :: Steps(cal, max, run[i], run[i + 1])
    requires Synced(table, run[|run| - 1].store.points, {})
    ensures InStep(run[|run| - 1]) && Loadable(table, run[0].store.days.Keys)
    ensures forall t, s :: Before(RowChanges(table), t, s) == StateBefore(run[|run| - 1].store.points, t, s)
  {
    RunInStep(cal, max, run, |run| - 1);
    ReloadSame(table, run[|run| - 1].store.points, run[0].store.days.Keys);
  }

  lemma {:induction false} RunInStep(cal: Calendar, max: Option<nat>, run: seq<Machine>, k: nat)
    requires k < |run| && InStep(run[0])
    requires forall i | 0 <= i < |run| - 1 :: Steps(cal, max, run[i], run[i + 1])
    ensures InStep(run[k]) && run[k].store.days.Keys == run[0].store.days.Keys
  {
    if k > 0 {
      RunInStep(cal, max, run, k - 1);
      StepInStep(cal, max, run[k - 1], run[k - 1 + 1]);
    }
  }

  /** Every signal's day index gives the time its state function spends in each state on each day. */
  ghost predicate AllExact(cal: Calendar, a: Stage) {
    ValidPoints(a.points) && forall s | s in a.days :: Exact(cal, a.points, a.days, s)
  }

  /** An update of at most one signal without garbage collection, or a flush. */
  ghost predicate PlainStep(cal: Calendar, a: Machine, b: Machine) {
    (exists r: Request :: |r.signals| <= 1 && Updates(cal, None, r, a, b)) || Flushes(a, b)
  }

  lemma PlainStepExact(cal: Calendar, a: Machine, b: Machine)
    requires AllExact(cal, a.store) && PlainStep(cal, a, b)
    ensures AllExact(cal, b.store)
  {
    hide Exact, DebugPasses, Desired, Before, Chained, Silent, Synced, DirtyCovers, ZeroesKnown, ValidPoint;
    if !Flushes(a, b) {
      var r: Request :| |r.signals| <= 1 && Updates(cal, None, r, a, b);
      forall s | s in b.store.days ensures Exact(cal, b.store.points, b.store.days, s) {
        assert s in a.store.days && Exact(cal, a.store.points, a.store.days, s);
        assert IndexFollows(r, a.store.points, s);
      }
    }
  }

  /** Over any run of such steps all day indexes stay exact; none of the index's panics is reached. */
  lemma {:induction false} RunExact(cal: Calendar, run: seq<Machine>, k: nat)
    requires k < |run| && AllExact(cal, run[0].store)
    requires forall i | 0 <= i < |run| - 1 :: PlainStep(cal, run[i], run[i + 1])
    ensures AllExact(cal, run[k].store)
  {
    if k > 0 {
      RunExact(cal, run, k - 1);
      PlainStepExact(cal, run[k - 1], run[k - 1 + 1]);
    }
  }

  /** An index rebuilt from the table gives the same times as the one kept in memory. */
  lemma RebuiltAgrees(cal: Calendar, a: Stage, points: Points, days: DayIndexes, s: SignalId, k: int, state: nat)
    requires AllExact(cal, a) && s in a.days && ValidPoints(points) && s in days && Exact(cal, points, days, s) && state >= 1
    requires forall t :: StateBefore(points, t, s) == StateBefore(a.points, t, s)
    ensures a.days[s].Some? && days[s].Some? && DayTime(a.days[s].value, k, state) == DayTime(days[s].value, k, state)
  {
    assert Exact(cal, a.points, a.days, s);
    CountSame(StateFn(points, s), StateFn(a.points, s), cal.start(k), cal.start(k + 1), state);
  }
}
