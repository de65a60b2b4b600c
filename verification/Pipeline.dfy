/** All streams of a sample file directory together: they share the flush, the video sample entries
    that wait for it and the count of write streams. */
module Pipeline {
  import opened Base
  import opened RecentFrames
  import opened StreamState
  import opened Pipe
  import opened PipeInv
  import opened PipeSteps
  import opened PipeWorker
  import opened PipeFlush
  import opened PipeSafe

  /** Where a flush is; `n` is how many waiting entries it took. */
  datatype Phase = Free | Gathering | Taken(n: nat) | Applying(n: nat)

  /** `known` are the video sample entries in the database, `pending` those inserted in RAM since. */
  datatype World = World(pipes: map<int, Pipe>, known: set<int>, pending: seq<int>, phase: Phase, writeStreams: nat)

  datatype Move =
    | Local(stream: int, event: Event)
    | NewEntry(entry: int)
    | BeginFlush
    | TakeEntries
    | CommitAll(gced: map<int, set<int>>)
    | FailAll
    | EndFlush
    | Crash(files: map<int, map<int, File>>)

  function Entries(w: World): set<int> {
    w.known + set e | e in w.pending
  }

  // -- moves -------------------------------------------------------------------------------------

  predicate Fits(p: Pipe) {
    p.stream.queue.lastGop <= |p.stream.queue.frames|
  }

  ghost predicate Allowed(w: World, m: Move) {
    match m
    case Local(k, ev) =>
      && k in w.pipes && Enabled(w.pipes[k], ev) && Fits(w.pipes[k])
      && (ev.Notify? || ev.Pin? || ev.QueueDelete? ==> w.phase.Free?)
      && (ev.Gather? ==> w.phase.Gathering?) && (ev.Apply? ==> w.phase.Applying?)
      && !ev.Commit? && !ev.Fail?
      && (ev.Push? ==> ev.entry in Entries(w))
    case NewEntry(e) => e !in Entries(w)
    case BeginFlush => w.phase.Free?
    case TakeEntries => w.phase.Gathering? && forall k | k in w.pipes :: w.pipes[k].flush.Gathered?
    case CommitAll(gced) => w.phase.Taken? && forall k | k in w.pipes :: GcedOf(gced, k) <= w.pipes[k].handed
    case FailAll => w.phase.Gathering? || w.phase.Taken?
    case EndFlush => w.phase.Applying? && forall k | k in w.pipes :: w.pipes[k].flush.NoFlush?
    case Crash(files) => forall k | k in w.pipes :: k in files && Survives(w.pipes[k].files, files[k])
  }

  function GcedOf(gced: map<int, set<int>>, k: int): set<int> {
    if k in gced then gced[k] else {}
  }

  /** The step wakes the worker and the pool takes the command. */
  predicate Sends(ev: Event) {
    (ev.Push? && ev.wake == Some(true)) || (ev.CloseRecording? && ev.sent)
  }

  /** `write_streams` after a step from p to q: `wake` adds an inactive stream, a worker that leaves
      without an open file subtracts; `None` is `dec_write_streams`' failed `expect`. */
  function Streams(n: nat, p: Pipe, ev: Event, q: Pipe): Option<nat> {
    if Sends(ev) then Some(if p.stream.ws.onWorker || p.stream.ws.file then n else n + 1)
    else if ev.PrepStep? && q.job.Off? && !q.stream.ws.file then if n == 0 then None else Some(n - 1)
    else Some(n)
  }

  function CommitPipe(p: Pipe, gced: set<int>): Option<Pipe> {
    if p.flush.Gathered? then CommitTx(p, gced) else None
  }

  function Ended(p: Pipe): Pipe {
    p.(flush := NoFlush)
  }

  /** The world after a move; `None` if an assertion of the source fails. */
  ghost function Do(w: World, m: Move): Option<World>
    requires Allowed(w, m)
  {
    match m
    case Local(k, ev) =>
      (match Step(w.pipes[k], ev)
       case None => None
       case Some(q) =>
         match Streams(w.writeStreams, w.pipes[k], ev, q)
         case None => None
         case Some(n) => Some(w.(pipes := w.pipes[k := q], writeStreams := n)))
    case NewEntry(e) => Some(w.(pending := w.pending + [e]))
    case BeginFlush => Some(w.(phase := Gathering))
    case TakeEntries => Some(w.(phase := Taken(|w.pending|)))
    case CommitAll(gced) =>
      if w.phase.n > |w.pending| || exists k :: k in w.pipes && CommitPipe(w.pipes[k], GcedOf(gced, k)).None? then None
      else Some(w.(pipes := map k | k in w.pipes :: CommitPipe(w.pipes[k], GcedOf(gced, k)).value,
                   known := w.known + (set e | e in w.pending[..w.phase.n]), phase := Applying(w.phase.n)))
    case FailAll => Some(w.(pipes := map k | k in w.pipes :: Ended(w.pipes[k]), phase := Free))
    case EndFlush =>
      if w.phase.n > |w.pending| then None
      else Some(w.(pending := w.pending[w.phase.n..], phase := Free))
    case Crash(files) =>
      Some(World(map k | k in w.pipes :: Restart(w.pipes[k], files[k]), w.known, [], Free, 0))
  }

  // -- the invariant -----------------------------------------------------------------------------

  ghost predicate RecEntries(recs: seq<Rec>, entries: set<int>) {
    forall i | 0 <= i < |recs| :: recs[i].entry in entries
  }

  ghost predicate RowEntries(rows: map<int, Row>, known: set<int>) {
    forall id | id in rows :: rows[id].entry in known
  }

  ghost predicate PhaseOk(w: World, p: Pipe) {
    match w.phase
    case Free => p.flush.NoFlush?
    case Gathering => !p.flush.Committed?
    case Taken(n) =>
      n <= |w.pending| && p.flush.Gathered? && RecEntries(p.flush.news, w.known + set e | e in w.pending[..n])
    case Applying(n) =>
      n <= |w.pending| && !p.flush.Gathered? && (set e | e in w.pending[..n]) <= w.known
  }

  ghost predicate PipeOk(w: World, p: Pipe) {
    Inv(p) && PhaseOk(w, p) && RecEntries(p.stream.recs, Entries(w)) && RowEntries(p.rows, w.known)
  }

  /** A worker is responsible for the stream, or its file is open. */
  predicate Active(p: Pipe) {
    p.stream.ws.onWorker || p.stream.ws.file
  }

  function ActiveStreams(w: World): set<int> {
    set k | k in w.pipes && Active(w.pipes[k])
  }

  ghost predicate WorldOk(w: World) {
    && (forall k | k in w.pipes :: PipeOk(w, w.pipes[k]))
    && (w.phase.Taken? || w.phase.Applying? ==> w.phase.n <= |w.pending|)
    && (w.phase.Applying? ==> (set e | e in w.pending[..w.phase.n]) <= w.known)
    && w.writeStreams == |ActiveStreams(w)|
  }

  // -- one stream's step -------------------------------------------------------------------------

  lemma {:induction false} PrepEntries(s: Stream, last: Option<(int, Outcome)>, entries: set<int>)
    requires s.queue.lastGop <= |s.queue.frames| && RecEntries(s.recs, entries)
    ensures !Prep(s, last).Panic? ==> RecEntries(Prep(s, last).s.recs, entries)
    decreases if last.Some? then 1 else 0, |s.recs| - Partition(s.recs, s.ws.id)
  {
    hide OnePass, RecEntries;
    PassEntries(s, last, entries);
    match OnePass(s, last)
    case Again(t) => PrepEntries(t, None, entries);
    case done =>
  }

  lemma PassEntries(s: Stream, last: Option<(int, Outcome)>, entries: set<int>)
    requires s.queue.lastGop <= |s.queue.frames| && RecEntries(s.recs, entries)
    ensures !OnePass(s, last).Panic? ==> RecEntries(OnePass(s, last).s.recs, entries)
  {
    hide PruneFront, PrepareWrite, MaybePrune;
    if last.Some? && TakeOutcome(s, last.value.0, last.value.1).Again? {
      forall t: Stream | RecEntries(t.recs, entries) ensures RecEntries(MaybePrune(t).recs, entries) {
        PrunedEntries(t, entries);
      }
    }
  }

  lemma PrunedEntries(s: Stream, entries: set<int>)
    requires RecEntries(s.recs, entries)
    ensures RecEntries(MaybePrune(s).recs, entries)
  {
  }

  lemma PushEntries(p: Pipe, sample: Bytes, isKey: bool, entry: int, entries: set<int>)
    requires Fits(p) && RecEntries(p.stream.recs, entries) && entry in entries && PushFrame(p, sample, isKey, entry).Some?
    ensures RecEntries(PushFrame(p, sample, isKey, entry).value.stream.recs, entries)
    ensures PushFrame(p, sample, isKey, entry).value.stream.ws == p.stream.ws
    ensures PushFrame(p, sample, isKey, entry).value.rows == p.rows && PushFrame(p, sample, isKey, entry).value.flush == p.flush
    ensures PushFrame(p, sample, isKey, entry).value.job == p.job
  {
    hide PruneFront;
  }

  lemma ApplyEntries(p: Pipe, entries: set<int>)
    requires p.flush.Committed? && RecEntries(p.stream.recs, entries) && ApplyFlush(p).Some?
    ensures RecEntries(ApplyFlush(p).value.stream.recs, entries)
    ensures ApplyFlush(p).value.rows == p.rows && ApplyFlush(p).value.flush.NoFlush?
    ensures ApplyFlush(p).value.stream.ws == p.stream.ws
  {
    hide CumOf;
  }

  /** What a step of one stream does to what the streams share. */
  ghost predicate Outward(p: Pipe, ev: Event, q: Pipe, entries: set<int>) {
    && RecEntries(q.stream.recs, entries) && q.rows == p.rows
    && (if ev.Gather? then q.flush.Gathered? else if ev.Apply? then q.flush.NoFlush? else q.flush == p.flush)
    && (if Sends(ev) then Active(q)
        else if ev.PrepStep? then Active(p) && (Active(q) <==> !(q.job.Off? && !q.stream.ws.file))
        else Active(q) <==> Active(p))
  }

  lemma StepOutward(p: Pipe, ev: Event, entries: set<int>)
    requires Inv(p) && Enabled(p, ev) && Fits(p) && RecEntries(p.stream.recs, entries)
    requires !ev.Commit? && !ev.Fail? && (ev.Push? ==> ev.entry in entries)
    ensures Step(p, ev).Some? && Inv(Step(p, ev).value) && Outward(p, ev, Step(p, ev).value, entries)
  {
    hide Inv, PushFrame, WorkerPrep, ApplyFlush, Ready, DeletesAborted;
    StepSafe(p, ev);
    match ev
    case Push(sample, isKey, entry, wake) => PushEntries(p, sample, isKey, entry, entries);
    case PrepStep => PrepOutward(p, entries);
    case Apply => ApplyEntries(p, entries);
    case _ =>
  }

  lemma PrepOutward(p: Pipe, entries: set<int>)
    requires Inv(p) && p.job.Queued? && Fits(p) && RecEntries(p.stream.recs, entries) && WorkerPrep(p).Some?
    requires Inv(WorkerPrep(p).value)
    ensures Outward(p, PrepStep, WorkerPrep(p).value, entries)
  {
    hide Inv, Prep;
    PrepEntries(p.stream, p.job.last, entries);
    OnWorkerIff(p);
    OnWorkerIff(WorkerPrep(p).value);
  }

  lemma OnWorkerIff(p: Pipe)
    requires Inv(p)
    ensures p.stream.ws.onWorker <==> p.job != Off
  {
    hide RecsOk, FramesOk, DbOk, FlushOk, CumsOk;
  }

  // -- every move --------------------------------------------------------------------------------

  lemma CountChanges(w: World, k: int, q: Pipe)
    requires k in w.pipes
    ensures var v := w.(pipes := w.pipes[k := q]);
            |ActiveStreams(v)| == |ActiveStreams(w)| + (if Active(q) then 1 else 0) - (if Active(w.pipes[k]) then 1 else 0)
  {
    var v := w.(pipes := w.pipes[k := q]);
    var rest := ActiveStreams(w) - {k};
    assert ActiveStreams(v) - {k} == rest;
    assert ActiveStreams(w) == if Active(w.pipes[k]) then rest + {k} else rest;
    assert ActiveStreams(v) == if Active(q) then rest + {k} else rest;
  }

  lemma LocalSafe(w: World, k: int, ev: Event)
    requires WorldOk(w) && Allowed(w, Local(k, ev))
    ensures Do(w, Local(k, ev)).Some? && WorldOk(Do(w, Local(k, ev)).value)
  {
    hide Inv, Step, Enabled, RecEntries, RowEntries, ActiveStreams;
    var p := w.pipes[k];
    assert PipeOk(w, p);
    StepOutward(p, ev, Entries(w));
    var q := Step(p, ev).value;
    CountChanges(w, k, q);
    ActiveCounted(w, k);
    var v := Do(w, Local(k, ev)).value;
    forall j | j in v.pipes ensures PipeOk(v, v.pipes[j]) {
      assert PipeOk(w, w.pipes[j]);
    }
    SameActive(v, w.(pipes := w.pipes[k := q]));
  }

  lemma ActiveCounted(w: World, k: int)
    requires k in w.pipes
    ensures Active(w.pipes[k]) ==> |ActiveStreams(w)| > 0
  {
    assert Active(w.pipes[k]) ==> k in ActiveStreams(w);
  }

  lemma SameActive(v: World, w: World)
    requires v.pipes == w.pipes
    ensures ActiveStreams(v) == ActiveStreams(w)
  {
  }

  lemma MoreEntries(p: Pipe, a: set<int>, b: set<int>)
    requires RecEntries(p.stream.recs, a) && a <= b
    ensures RecEntries(p.stream.recs, b)
  {
  }

  lemma NewEntrySafe(w: World, e: int)
    requires WorldOk(w) && Allowed(w, NewEntry(e))
    ensures Do(w, NewEntry(e)).Some? && WorldOk(Do(w, NewEntry(e)).value)
  {
    hide Inv, RecEntries, RowEntries;
    var v := Do(w, NewEntry(e)).value;
    SameActive(v, w);
    assert w.phase.Taken? || w.phase.Applying? ==> v.pending[..w.phase.n] == w.pending[..w.phase.n];
    forall k | k in v.pipes ensures PipeOk(v, v.pipes[k]) {
      assert PipeOk(w, w.pipes[k]);
      MoreEntries(w.pipes[k], Entries(w), Entries(v));
    }
  }

  lemma PhaseSafe(w: World, m: Move)
    requires WorldOk(w) && Allowed(w, m) && (m.BeginFlush? || m.TakeEntries?)
    ensures Do(w, m).Some? && WorldOk(Do(w, m).value)
  {
    hide RowEntries, RecsOk, FramesOk, JobOk, DbOk, CumsOk;
    var v := Do(w, m).value;
    SameActive(v, w);
    assert w.pending[..|w.pending|] == w.pending;
    forall k | k in v.pipes ensures PipeOk(v, v.pipes[k]) {
      assert PipeOk(w, w.pipes[k]);
      if m.TakeEntries? {
        NewsEntries(w.pipes[k], Entries(w));
      }
    }
  }

  lemma NewsEntries(p: Pipe, entries: set<int>)
    requires FlushOk(p) && p.flush.Gathered? && RecEntries(p.stream.recs, entries)
    ensures RecEntries(p.flush.news, entries)
  {
    forall i | 0 <= i < |p.flush.news| ensures p.flush.news[i].entry in entries {
      assert p.flush.news[i] in p.flush.news;
    }
  }

  /** Each row that a commit inserts names a video sample entry that the same commit stores. */
  lemma CommitEntries(p: Pipe, gced: set<int>, known: set<int>, taken: set<int>)
    requires Inv(p) && p.flush.Gathered? && CommitTx(p, gced).Some?
    requires RowEntries(p.rows, known) && RecEntries(p.flush.news, known + taken)
    ensures RowEntries(CommitTx(p, gced).value.rows, known + taken)
  {
    hide Inv, CommitTx;
    CommitInserts(p, gced);
    var rows := CommitTx(p, gced).value.rows;
    forall id | id in rows ensures rows[id].entry in known + taken {
      if r :| r in p.flush.news && r.id == id {
        assert rows[r.id] == Row(r.bytes, r.entry, Data(p, r.id));
      }
    }
  }

  lemma CommitPipeSafe(w: World, p: Pipe, gced: set<int>, v: World)
    requires PipeOk(w, p) && w.phase.Taken? && gced <= p.handed
    requires v.phase == Applying(w.phase.n) && v.pending == w.pending && w.phase.n <= |w.pending|
    requires v.known == w.known + (set e | e in w.pending[..w.phase.n])
    ensures CommitPipe(p, gced).Some? && PipeOk(v, CommitPipe(p, gced).value)
    ensures CommitPipe(p, gced).value.stream == p.stream
  {
    hide Inv, RecEntries, RowEntries, CommitTx;
    CommitSafe(p, gced);
    CommitEntries(p, gced, w.known, set e | e in w.pending[..w.phase.n]);
    CommitKeepsStream(p, gced);
    MoreEntries(p, Entries(w), Entries(v));
  }

  lemma CommitKeepsStream(p: Pipe, gced: set<int>)
    requires p.flush.Gathered? && CommitTx(p, gced).Some?
    ensures CommitTx(p, gced).value.stream == p.stream && CommitTx(p, gced).value.flush.Committed?
  {
    hide Inserted;
  }

  lemma CommitAllSafe(w: World, gced: map<int, set<int>>)
    requires WorldOk(w) && Allowed(w, CommitAll(gced))
    ensures Do(w, CommitAll(gced)).Some? && WorldOk(Do(w, CommitAll(gced)).value)
  {
    hide Inv, RecEntries, RowEntries, CommitPipe, PhaseOk, Allowed;
    assert w.phase.Taken? by { TakenThen(w, gced); }
    var n := w.phase.n;
    var target := w.(known := w.known + (set e | e in w.pending[..n]), phase := Applying(n));
    forall k | k in w.pipes ensures CommitPipe(w.pipes[k], GcedOf(gced, k)).Some?
                                    && PipeOk(target, CommitPipe(w.pipes[k], GcedOf(gced, k)).value)
                                    && CommitPipe(w.pipes[k], GcedOf(gced, k)).value.stream == w.pipes[k].stream {
      GcedHanded(w, gced, k);
      CommitPipeSafe(w, w.pipes[k], GcedOf(gced, k), target);
    }
    var v := Do(w, CommitAll(gced)).value;
    forall k | k in v.pipes ensures PipeOk(v, v.pipes[k]) {
      SamePhase(target, v, v.pipes[k]);
    }
    SameStreams(v, w);
  }

  lemma SameStreams(v: World, w: World)
    requires v.pipes.Keys == w.pipes.Keys && forall k | k in w.pipes :: v.pipes[k].stream == w.pipes[k].stream
    ensures ActiveStreams(v) == ActiveStreams(w)
  {
    forall k ensures k in ActiveStreams(v) <==> k in ActiveStreams(w) {
      assert k in w.pipes ==> v.pipes[k].stream == w.pipes[k].stream;
    }
  }

  lemma GcedHanded(w: World, gced: map<int, set<int>>, k: int)
    requires Allowed(w, CommitAll(gced)) && k in w.pipes
    ensures w.phase.Taken? && GcedOf(gced, k) <= w.pipes[k].handed
  {
  }

  lemma TakenThen(w: World, gced: map<int, set<int>>)
    requires Allowed(w, CommitAll(gced))
    ensures w.phase.Taken?
  {
  }

  lemma SamePhase(w: World, v: World, p: Pipe)
    requires PipeOk(w, p) && v.phase == w.phase && v.pending == w.pending && v.known == w.known
    ensures PipeOk(v, p)
  {
  }

  lemma FailAllSafe(w: World)
    requires WorldOk(w) && Allowed(w, FailAll)
    ensures Do(w, FailAll).Some? && WorldOk(Do(w, FailAll).value)
  {
    hide Inv, RecEntries, RowEntries;
    var v := Do(w, FailAll).value;
    forall k | k in v.pipes ensures PipeOk(v, v.pipes[k]) {
      assert PipeOk(w, w.pipes[k]);
      if w.pipes[k].flush.Gathered? {
        FailSafe(w.pipes[k]);
      }
    }
    SameStreams(v, w);
  }

  lemma EndFlushSafe(w: World)
    requires WorldOk(w) && Allowed(w, EndFlush)
    ensures Do(w, EndFlush).Some? && WorldOk(Do(w, EndFlush).value)
  {
    hide Inv, RecEntries, RowEntries;
    var n := w.phase.n;
    var v := Do(w, EndFlush).value;
    assert w.pending == w.pending[..n] + w.pending[n..];
    SameActive(v, w);
    forall k | k in v.pipes ensures PipeOk(v, v.pipes[k]) {
      assert PipeOk(w, w.pipes[k]);
      MoreEntries(w.pipes[k], Entries(w), Entries(v));
    }
  }

  lemma CrashAllSafe(w: World, files: map<int, map<int, File>>)
    requires WorldOk(w) && Allowed(w, Move.Crash(files))
    ensures Do(w, Move.Crash(files)).Some? && WorldOk(Do(w, Move.Crash(files)).value)
  {
    hide Inv, RowEntries;
    var v := Do(w, Move.Crash(files)).value;
    forall k | k in v.pipes ensures PipeOk(v, v.pipes[k]) {
      assert PipeOk(w, w.pipes[k]);
      CrashSafe(w.pipes[k], files[k]);
    }
    assert forall k | k in w.pipes :: !Active(v.pipes[k]);
    assert ActiveStreams(v) == {};
  }

  /** Whatever happens next, no assertion of the source fails and the invariant holds again. */
  lemma MoveSafe(w: World, m: Move)
    requires WorldOk(w) && Allowed(w, m)
    ensures Do(w, m).Some? && WorldOk(Do(w, m).value)
  {
    hide WorldOk, Do, Allowed;
    match m
    case Local(k, ev) => LocalSafe(w, k, ev);
    case NewEntry(e) => NewEntrySafe(w, e);
    case BeginFlush => PhaseSafe(w, m);
    case TakeEntries => PhaseSafe(w, m);
    case CommitAll(gced) => CommitAllSafe(w, gced);
    case FailAll => FailAllSafe(w);
    case EndFlush => EndFlushSafe(w);
    case Crash(files) => CrashAllSafe(w, files);
  }

  // -- runs --------------------------------------------------------------------------------------

  /** Just started on a database all of whose rows have their files. */
  ghost predicate Started(w: World) {
    && w.pending == [] && w.phase.Free? && w.writeStreams == 0
    && forall k | k in w.pipes :: StartedOk(w.pipes[k], w.known)
  }

  ghost predicate StartedOk(p: Pipe, known: set<int>) {
    p == Restart(p, p.files) && p.dbCum >= 0 && DbOk(p.rows, p.files, p.garbage, {}, p.dbCum, p.dbCum) && RowEntries(p.rows, known)
  }

  ghost predicate Reaches(w: World, moves: seq<Move>, v: World)
    decreases |moves|
  {
    if moves == [] then v == w
    else
      var before, last := moves[..|moves| - 1], moves[|moves| - 1];
      exists u :: Reaches(w, before, u) && Moves(u, last, v)
  }

  ghost predicate Moves(u: World, m: Move, v: World) {
    Allowed(u, m) && Do(u, m) == Some(v)
  }

  lemma {:induction false} RunSafe(w: World, moves: seq<Move>, v: World)
    requires WorldOk(w) && Reaches(w, moves, v)
    ensures WorldOk(v)
    decreases |moves|
  {
    hide WorldOk, Do, Allowed;
    if moves != [] {
      var before, last := moves[..|moves| - 1], moves[|moves| - 1];
      var u :| Reaches(w, before, u) && Moves(u, last, v);
      RunSafe(w, before, u);
      MoveSafe(u, last);
    }
  }

  lemma StartedSafe(w: World)
    requires Started(w)
    ensures WorldOk(w)
  {
    hide RowEntries, DbOk;
    forall k | k in w.pipes ensures PipeOk(w, w.pipes[k]) {
      var p := w.pipes[k];
      assert StartedOk(p, w.known);
      RestartRest(p, p.files);
      StartedDb(p);
    }
    forall k | k in w.pipes ensures !Active(w.pipes[k]) {
      assert StartedOk(w.pipes[k], w.known);
    }
    assert ActiveStreams(w) == {};
  }

  lemma StartedDb(p: Pipe)
    requires DbOk(p.rows, p.files, p.garbage, {}, p.dbCum, p.dbCum)
    ensures DbOk(p.rows, p.files, p.garbage, p.garbage, p.dbCum, p.dbCum)
  {
  }

  /** In every state that a run reaches, crashes included, each row of each stream has a file that was
      completely written and synced with exactly the row's bytes and that a crash now would leave so;
      its video sample entry is in the database; and `write_streams` is the number of streams that are
      on a worker or have an open file. */
  lemma RunsAreSafe(w: World, moves: seq<Move>, v: World, k: int, id: int, after: map<int, File>)
    requires Started(w) && Reaches(w, moves, v) && k in v.pipes && id in v.pipes[k].rows
    requires Survives(v.pipes[k].files, after)
    ensures var row := v.pipes[k].rows[id];
            id in after && after[id].content == row.content && |after[id].content| == row.bytes && row.entry in v.known
    ensures v.writeStreams == |ActiveStreams(v)|
  {
    hide Inv, Reaches, ActiveStreams;
    StartedSafe(w);
    RunSafe(w, moves, v);
    assert PipeOk(v, v.pipes[k]);
    RowsAreStored(v.pipes[k], after);
  }
}
