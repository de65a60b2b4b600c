/** Deleted recordings' files: the garbage table, the directory pool's two lists and any number of
    collectors at once (server/db/dir/mod.rs, server/db/raw.rs, server/db/db.rs). */
module Garbage {
  import opened Base

  // -- the pool's lists --------------------------------------------------------------------------

  /** What a collector moves from the set to the list: each id of its own that is still in the set. */
  function Moved(ids: seq<int>, needs: set<int>): (moved: seq<int>)
    decreases |ids|
  {
    if ids == [] then []
    else if ids[0] in needs then [ids[0]] + Moved(ids[1..], needs - {ids[0]})
    else Moved(ids[1..], needs)
  }

  function SetOf(ids: seq<int>): set<int> {
    set id | id in ids
  }

  ghost predicate Distinct(ids: seq<int>) {
    forall i, j | 0 <= i < j < |ids| :: ids[i] != ids[j]
  }

  lemma {:induction false} MovedIs(ids: seq<int>, needs: set<int>)
    ensures SetOf(Moved(ids, needs)) == SetOf(ids) * needs && Distinct(Moved(ids, needs))
    decreases |ids|
  {
    if ids != [] {
      var rest := if ids[0] in needs then needs - {ids[0]} else needs;
      MovedIs(ids[1..], rest);
      assert SetOf(ids) == {ids[0]} + SetOf(ids[1..]);
      var moved := Moved(ids[1..], rest);
      if ids[0] in needs {
        forall i, j | 0 <= i < j < |[ids[0]] + moved| ensures ([ids[0]] + moved)[i] != ([ids[0]] + moved)[j] {
          assert moved[j - 1] in SetOf(moved);
        }
        assert SetOf([ids[0]] + moved) == {ids[0]} + SetOf(moved);
      }
    }
  }

  /** The part of `Inner` that deals with garbage. */
  class Pool {
    var needsUnlink: set<int>
    var unlinked: seq<int>

    /** At startup from the garbage table. */
    constructor (garbage: set<int>)
      ensures needsUnlink == garbage && unlinked == []
    {
      needsUnlink, unlinked := garbage, [];
    }

    method InsertGarbageNeedsUnlink(id: int)
      modifies this`needsUnlink
      ensures needsUnlink == old(needsUnlink) + {id}
    {
      needsUnlink := needsUnlink + {id};
    }

    /** The end of `collect_garbage`: `garbage` are the ids that this collector unlinked and synced. */
    method FinishCollecting(garbage: seq<int>)
      modifies this
      ensures needsUnlink == old(needsUnlink) - SetOf(garbage)
      ensures unlinked == old(unlinked) + Moved(garbage, old(needsUnlink))
    {
      var i := 0;
      while i < |garbage|
        invariant i <= |garbage| && needsUnlink == old(needsUnlink) - SetOf(garbage[..i])
        invariant unlinked + Moved(garbage[i..], needsUnlink) == old(unlinked) + Moved(garbage, old(needsUnlink))
      {
        assert garbage[i..][1..] == garbage[i + 1..];
        assert SetOf(garbage[..i + 1]) == SetOf(garbage[..i]) + {garbage[i]};
        if garbage[i] in needsUnlink {
          needsUnlink := needsUnlink - {garbage[i]};
          unlinked := unlinked + [garbage[i]];
        } else {
          assert needsUnlink - {garbage[i]} == needsUnlink;
        }
        i := i + 1;
      }
      assert garbage[..i] == garbage;
    }

    /** `remove_garbage_unlinked_prefix`; its debug assertion is the caller's duty. */
    method RemoveGarbageUnlinkedPrefix(ids: seq<int>)
      requires ids <= unlinked
      modifies this`unlinked
      ensures old(unlinked) == ids + unlinked
    {
      unlinked := unlinked[|ids|..];
    }
  }

  /** `mark_sample_files_deleted`; `None` is its panic: no garbage row. */
  function MarkSampleFilesDeleted(table: set<int>, ids: seq<int>): Option<set<int>>
    decreases |ids|
  {
    if ids == [] then Some(table)
    else if ids[0] !in table then None
    else MarkSampleFilesDeleted(table - {ids[0]}, ids[1..])
  }

  lemma {:induction false} MarkedExactly(table: set<int>, ids: seq<int>)
    ensures MarkSampleFilesDeleted(table, ids).Some? <==> Distinct(ids) && SetOf(ids) <= table
    ensures MarkSampleFilesDeleted(table, ids).Some? ==> MarkSampleFilesDeleted(table, ids).value == table - SetOf(ids)
    decreases |ids|
  {
    if ids != [] {
      MarkedExactly(table - {ids[0]}, ids[1..]);
      var rest := ids[1..];
      assert SetOf(ids) == {ids[0]} + SetOf(rest);
      if Distinct(rest) && ids[0] !in SetOf(rest) {
        forall i, j | 0 <= i < j < |ids| ensures ids[i] != ids[j] {
          assert rest[j - 1] in SetOf(rest);
          assert i > 0 ==> rest[i - 1] != rest[j - 1];
        }
      }
      if Distinct(ids) {
        forall k | k in rest ensures k != ids[0] {
          var j :| 0 <= j < |rest| && rest[j] == k;
          assert ids[j + 1] == k;
        }
        forall i, j | 0 <= i < j < |rest| ensures rest[i] != rest[j] {
          assert ids[i + 1] != ids[j + 1];
        }
      }
    }
  }

  // -- the protocol ------------------------------------------------------------------------------

  /** A collector has copied the set and unlinks one by one (`kept` are those unlinked or not there),
      or has synced the directory since. */
  datatype Collector = Unlinking(todo: set<int>, kept: seq<int>) | Synced(kept: seq<int>)

  /** `Tx`: the database lock is held and `gced` was read; `Committed`: the transaction has moved `gone`
      to the table and removed `gced`; `Applied`: `gone` is in the pool's set. */
  datatype Flush = Free | Tx(gced: seq<int>) | Committed(gced: seq<int>, gone: set<int>) | Applied(gced: seq<int>)

  /** `seen` are the directory's entries, `disk` those that were there at its last sync. */
  datatype State = State(rows: set<int>, table: set<int>, dbCum: int, needs: set<int>, unlinked: seq<int>,
                         seen: set<int>, disk: set<int>, collectors: map<int, Collector>, flush: Flush)

  datatype Event =
    | Create(id: int)
    | SyncDir
    | Collect(c: int)
    | UnlinkOne(c: int, id: int, gone: bool)
    | SyncCollected(c: int, ok: bool)
    | Finish(c: int)
    | BeginFlush
    | Commit(deleted: set<int>, inserted: set<int>, cum: int)
    | Fail
    | Apply
    | EndFlush
    | Crash(left: set<int>)

  ghost predicate Enabled(s: State, ev: Event) {
    match ev
    case Create(id) => id >= s.dbCum
    case SyncDir => true
    case Collect(c) => c !in s.collectors
    case UnlinkOne(c, id, gone) => c in s.collectors && s.collectors[c].Unlinking? && id in s.collectors[c].todo
    case SyncCollected(c, ok) => c in s.collectors && s.collectors[c].Unlinking? && s.collectors[c].todo == {}
    case Finish(c) => c in s.collectors && s.collectors[c].Synced?
    case BeginFlush => s.flush.Free?
    case Commit(deleted, inserted, cum) =>
      s.flush.Tx? && deleted <= s.rows && cum >= s.dbCum && (forall id | id in inserted :: s.dbCum <= id < cum)
    case Fail => s.flush.Tx?
    case Apply => s.flush.Committed?
    case EndFlush => s.flush.Applied?
    case Crash(left) => s.seen * s.disk <= left <= s.seen + s.disk
  }

  /** The state after a step; `None` if a panic of the source is reached. */
  function Step(s: State, ev: Event): Option<State>
    requires Enabled(s, ev)
  {
    match ev
    case Create(id) => Some(s.(seen := s.seen + {id}))
    case SyncDir => Some(s.(disk := s.seen))
    case Collect(c) => Some(s.(collectors := s.collectors[c := Unlinking(s.needs, [])]))
    case UnlinkOne(c, id, gone) =>
      var col := s.collectors[c];
      Some(if gone then s.(seen := s.seen - {id}, collectors := s.collectors[c := Unlinking(col.todo - {id}, col.kept + [id])])
           else s.(collectors := s.collectors[c := Unlinking(col.todo - {id}, col.kept)]))
    case SyncCollected(c, ok) =>
      Some(if s.collectors[c].kept == [] then s.(collectors := s.collectors[c := Synced([])])
           else if ok then s.(disk := s.seen, collectors := s.collectors[c := Synced(s.collectors[c].kept)])
           else s.(collectors := s.collectors - {c}))
    case Finish(c) =>
      var kept := s.collectors[c].kept;
      Some(s.(needs := s.needs - SetOf(kept), unlinked := s.unlinked + Moved(kept, s.needs), collectors := s.collectors - {c}))
    case BeginFlush => Some(s.(flush := Tx(s.unlinked)))
    case Commit(deleted, inserted, cum) =>
      (match MarkSampleFilesDeleted(s.table + deleted, s.flush.gced)
       case None => None
       case Some(table) =>
         Some(s.(rows := s.rows - deleted + inserted, table := table, dbCum := cum, flush := Committed(s.flush.gced, deleted))))
    case Fail => Some(s.(flush := Free))
    case Apply => Some(s.(needs := s.needs + s.flush.gone, flush := Applied(s.flush.gced)))
    case EndFlush =>
      if s.flush.gced <= s.unlinked then Some(s.(unlinked := s.unlinked[|s.flush.gced|..], flush := Free)) else None
    case Crash(left) =>
      Some(State(s.rows, s.table, s.dbCum, s.table, [], left, left, map[], Free))
  }

  ghost predicate Retired(s: State, ids: set<int>) {
    forall id | id in ids :: id < s.dbCum && id !in s.rows
  }

  ghost predicate CollectorOk(s: State, c: Collector) {
    match c
    case Unlinking(todo, kept) => Retired(s, todo) && Retired(s, SetOf(kept)) && SetOf(kept) !! s.seen
    case Synced(kept) => Retired(s, SetOf(kept)) && SetOf(kept) !! s.seen && SetOf(kept) !! s.disk
  }

  /** How the table relates to the pool's lists. */
  ghost predicate TableOk(s: State) {
    match s.flush
    case Free => s.table == s.needs + SetOf(s.unlinked)
    case Tx(gced) => gced <= s.unlinked && s.table == s.needs + SetOf(s.unlinked)
    case Committed(gced, gone) =>
      && gced <= s.unlinked && gone !! s.needs && gone !! SetOf(s.unlinked)
      && s.table == s.needs + SetOf(s.unlinked[|gced|..]) + gone
    case Applied(gced) => gced <= s.unlinked && s.table == s.needs + SetOf(s.unlinked[|gced|..])
  }

  ghost predicate Inv(s: State) {
    && TableOk(s) && s.needs !! SetOf(s.unlinked) && Distinct(s.unlinked)
    && Retired(s, s.table) && Retired(s, s.needs) && Retired(s, SetOf(s.unlinked))
    && (s.flush.Committed? ==> Retired(s, s.flush.gone))
    && (forall id | id in s.rows :: id < s.dbCum)
    && SetOf(s.unlinked) !! s.seen && SetOf(s.unlinked) !! s.disk
    && (forall c | c in s.collectors :: CollectorOk(s, s.collectors[c]))
  }

  // -- proofs ------------------------------------------------------------------------------------

  lemma Appended(a: seq<int>, b: seq<int>)
    ensures SetOf(a + b) == SetOf(a) + SetOf(b)
    ensures Distinct(a) && Distinct(b) && SetOf(a) !! SetOf(b) ==> Distinct(a + b)
  {
    if Distinct(a) && Distinct(b) && SetOf(a) !! SetOf(b) {
      forall i, j | 0 <= i < j < |a + b| ensures (a + b)[i] != (a + b)[j] {
        if i < |a| <= j {
          assert a[i] in SetOf(a) && b[j - |a|] in SetOf(b);
        }
      }
    }
  }

  lemma Split(ids: seq<int>, n: nat)
    requires n <= |ids|
    ensures SetOf(ids) == SetOf(ids[..n]) + SetOf(ids[n..])
    ensures Distinct(ids) ==> SetOf(ids[..n]) !! SetOf(ids[n..]) && Distinct(ids[..n]) && Distinct(ids[n..])
  {
    assert ids == ids[..n] + ids[n..];
    Appended(ids[..n], ids[n..]);
  }

  lemma FinishSafe(s: State, c: int)
    requires Inv(s) && Enabled(s, Finish(c))
    ensures Inv(Step(s, Finish(c)).value)
  {
    var kept := s.collectors[c].kept;
    var moved := Moved(kept, s.needs);
    assert CollectorOk(s, s.collectors[c]);
    MovedIs(kept, s.needs);
    Appended(s.unlinked, moved);
    var t := Step(s, Finish(c)).value;
    if !s.flush.Free? {
      var n := |s.flush.gced|;
      Split(s.unlinked, n);
      Appended(s.unlinked[n..], moved);
      assert t.unlinked[n..] == s.unlinked[n..] + moved;
    }
    forall d | d in t.collectors ensures CollectorOk(t, t.collectors[d]) {
      assert CollectorOk(s, s.collectors[d]);
    }
  }

  /** Removing what was read from the list leaves the rest of it, the set and what was just deleted. */
  lemma CommitTable(s: State, deleted: set<int>)
    requires TableOk(s) && s.flush.Tx? && s.needs !! SetOf(s.unlinked) && Distinct(s.unlinked)
    requires deleted !! s.table
    ensures MarkSampleFilesDeleted(s.table + deleted, s.flush.gced)
         == Some(s.needs + SetOf(s.unlinked[|s.flush.gced|..]) + deleted)
    ensures deleted !! s.needs && deleted !! SetOf(s.unlinked)
  {
    var gced := s.flush.gced;
    Split(s.unlinked, |gced|);
    assert gced == s.unlinked[..|gced|];
    MarkedExactly(s.table + deleted, gced);
    assert (s.table + deleted) - SetOf(gced) == s.needs + SetOf(s.unlinked[|gced|..]) + deleted;
  }

  lemma CommitSafe(s: State, deleted: set<int>, inserted: set<int>, cum: int)
    requires Inv(s) && Enabled(s, Commit(deleted, inserted, cum))
    ensures Step(s, Commit(deleted, inserted, cum)).Some? && Inv(Step(s, Commit(deleted, inserted, cum)).value)
  {
    hide MarkSampleFilesDeleted, Distinct;
    assert forall id | id in deleted :: id in s.rows && id !in s.table;
    CommitTable(s, deleted);
    var t := Step(s, Commit(deleted, inserted, cum)).value;
    assert Retired(t, t.table) && Retired(t, deleted);
    forall d | d in t.collectors ensures CollectorOk(t, t.collectors[d]) {
      assert CollectorOk(s, s.collectors[d]);
    }
  }

  lemma UnlinkSafe(s: State, c: int, id: int, gone: bool)
    requires Inv(s) && Enabled(s, UnlinkOne(c, id, gone))
    ensures Inv(Step(s, UnlinkOne(c, id, gone)).value)
  {
    var t := Step(s, UnlinkOne(c, id, gone)).value;
    Appended(s.collectors[c].kept, [id]);
    forall d | d in t.collectors ensures CollectorOk(t, t.collectors[d]) {
      assert CollectorOk(s, s.collectors[c]);
      if d != c {
        assert CollectorOk(s, s.collectors[d]);
      }
    }
  }

  lemma EndFlushSafe(s: State)
    requires Inv(s) && s.flush.Applied?
    ensures Step(s, EndFlush).Some? && Inv(Step(s, EndFlush).value)
  {
    Split(s.unlinked, |s.flush.gced|);
    var t := Step(s, EndFlush).value;
    forall d | d in t.collectors ensures CollectorOk(t, t.collectors[d]) {
      assert CollectorOk(s, s.collectors[d]);
    }
  }

  /** Whatever the collectors, the worker and the flush do in whatever order, and whenever the machine
      crashes: "no garbage row" and the prefix assertion are never reached. */
  lemma StepSafe(s: State, ev: Event)
    requires Inv(s) && Enabled(s, ev)
    ensures Step(s, ev).Some? && Inv(Step(s, ev).value)
  {
    match ev
    case Finish(c) => FinishSafe(s, c);
    case Commit(deleted, inserted, cum) => CommitSafe(s, deleted, inserted, cum);
    case UnlinkOne(c, id, gone) => UnlinkSafe(s, c, id, gone);
    case EndFlush => EndFlushSafe(s);
    case _ =>
      OtherSafe(s, ev);
  }

  lemma OtherSafe(s: State, ev: Event)
    requires Inv(s) && Enabled(s, ev) && !ev.Finish? && !ev.Commit? && !ev.UnlinkOne? && !ev.EndFlush?
    ensures Step(s, ev).Some? && Inv(Step(s, ev).value)
  {
    var t := Step(s, ev).value;
    forall d | d in t.collectors ensures CollectorOk(t, t.collectors[d]) {
      if d in s.collectors {
        assert CollectorOk(s, s.collectors[d]);
      }
    }
    assert SetOf([]) == {};
    assert s.unlinked[|s.unlinked|..] == [];
  }

  ghost predicate Reaches(s: State, events: seq<Event>, t: State)
    decreases |events|
  {
    if events == [] then s == t
    else
      var before, last := events[..|events| - 1], events[|events| - 1];
      exists u :: Reaches(s, before, u) && Goes(u, last, t)
  }

  ghost predicate Goes(s: State, ev: Event, t: State) {
    Enabled(s, ev) && Step(s, ev) == Some(t)
  }

  lemma {:induction false} RunSafe(s: State, events: seq<Event>, t: State)
    requires Inv(s) && Reaches(s, events, t)
    ensures Inv(t)
    decreases |events|
  {
    hide Inv, Step, Enabled;
    if events != [] {
      var before, last := events[..|events| - 1], events[|events| - 1];
      var u :| Reaches(s, before, u) && Goes(u, last, t);
      RunSafe(s, before, u);
      StepSafe(u, last);
    }
  }

  /** Nothing but the database's tables and the directory is left at startup. */
  ghost predicate AtStartup(s: State) {
    && s == State(s.rows, s.table, s.dbCum, s.table, [], s.seen, s.seen, map[], Free)
    && s.rows !! s.table && forall id | id in s.rows + s.table :: id < s.dbCum
  }

  lemma StartupSafe(s: State)
    requires AtStartup(s)
    ensures Inv(s)
  {
    assert SetOf(s.unlinked) == {};
    assert s.table == s.needs + SetOf(s.unlinked);
    assert Retired(s, s.table) && Retired(s, s.needs) by {
      assert forall id | id in s.table :: id in s.rows + s.table;
    }
    assert forall id | id in s.rows :: id in s.rows + s.table;
  }

  /** In every state that a run from startup reaches: when the database lock is free the garbage table
      is the disjoint union of the ids to unlink and the ids unlinked; no id of the latter has a file,
      even after a crash; and no collector touches a file that a row names. */
  lemma RunsKeepGarbage(s: State, events: seq<Event>, t: State)
    requires AtStartup(s) && Reaches(s, events, t)
    ensures t.flush.Free? ==> t.table == t.needs + SetOf(t.unlinked)
    ensures t.needs !! SetOf(t.unlinked) && Distinct(t.unlinked)
    ensures forall id | id in t.unlinked :: id !in t.seen && id !in t.disk
    ensures forall c | c in t.collectors && t.collectors[c].Unlinking? :: t.collectors[c].todo !! t.rows
  {
    hide Reaches;
    StartupSafe(s);
    RunSafe(s, events, t);
    forall id | id in t.unlinked ensures id !in t.seen && id !in t.disk {
      assert id in SetOf(t.unlinked);
    }
    forall c | c in t.collectors && t.collectors[c].Unlinking? ensures t.collectors[c].todo !! t.rows {
      assert CollectorOk(t, t.collectors[c]);
      assert forall id | id in t.collectors[c].todo :: id !in t.rows;
    }
  }

  // -- nothing leaks -----------------------------------------------------------------------------

  /** The id has a row, or waits in the garbage table, or has no file, not even after a crash. */
  ghost predicate Tracked(s: State, id: int) {
    id < s.dbCum && (id in s.rows || id in s.table || (id !in s.seen && id !in s.disk))
  }

  lemma TrackedStep(s: State, ev: Event, id: int)
    requires Inv(s) && Enabled(s, ev) && Step(s, ev).Some? && Tracked(s, id)
    ensures Tracked(Step(s, ev).value, id)
  {
    match ev
    case Commit(deleted, inserted, cum) =>
      MarkedExactly(s.table + deleted, s.flush.gced);
      assert id in SetOf(s.flush.gced) ==> id in SetOf(s.unlinked);
    case _ =>
  }

  lemma {:induction false} TrackedRun(s: State, events: seq<Event>, t: State, id: int)
    requires Inv(s) && Reaches(s, events, t) && Tracked(s, id)
    ensures Tracked(t, id)
    decreases |events|
  {
    hide Inv, Step, Enabled, Tracked;
    if events != [] {
      var before, last := events[..|events| - 1], events[|events| - 1];
      var u :| Reaches(s, before, u) && Goes(u, last, t);
      RunSafe(s, before, u);
      TrackedRun(s, before, u, id);
      TrackedStep(u, last, id);
    }
  }

  /** No file of a recording that ever had a row leaks: at any later time of a run the row is still there,
      or the garbage table has the id, or the file is gone for good. */
  lemma NothingLeaks(s: State, events: seq<Event>, u: State, later: seq<Event>, t: State, id: int)
    requires AtStartup(s) && Reaches(s, events, u) && Reaches(u, later, t)
    requires id in u.rows || id in u.table
    ensures id in t.rows || id in t.table || (id !in t.seen && id !in t.disk)
  {
    hide Reaches;
    StartupSafe(s);
    RunSafe(s, events, u);
    TrackedRun(u, later, t, id);
  }
}
