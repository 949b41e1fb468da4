/**
 * The resumable runner: starts or resumes a job kept by the state manager, walks the chunks in
 * order, skips indices already completed, honours a pause request before each chunk that still
 * needs work, sends the rest to the remote processor and checkpoints after every outcome.  The
 * remote processor is an oracle indexed by chunk position, and a concurrent `pause()` is an input
 * saying whether the pause flag is set when chunk `i` is checked.
 */
module ResumableProcessing {
  import opened Wrappers
  import opened Sorting
  import opened Chunking
  import opened LlmProcessing
  import opened StateManagement

  /** The status argument of the progress callback. */
  datatype ProgressKind = SkippedChunk | ProcessingChunk | CompletedChunk

  /** One progress callback: completed count, total chunks, status. */
  datatype Progress = Progress(completed: nat, total: int, kind: ProgressKind)

  /** What the remote processor does with one chunk; the classifier's verdict is folded into the failure kind. */
  datatype RemoteOutcome = Success(result: ProcessedChunk) | Recoverable(message: string) | Fatal(message: string)

  /** The remote processor, by chunk position. */
  type Remote = nat -> RemoteOutcome

  /** The summary returned on normal completion (the cost before rounding to 4 decimals). */
  datatype RunSummary = RunSummary(chunksProcessed: nat, totalInputTokens: int, totalOutputTokens: int,
                                   totalCost: real, model: string, failedChunks: nat)

  /**
   * How `process_all_chunks` ends: returning results and summary, raising `PauseRequested`
   * before chunk `position`, re-raising the fatal error of chunk `position`, or raising
   * `ValueError` because nothing is stored.
   */
  datatype RunOutcome =
    | Finished(results: seq<ProcessedChunk>, summary: RunSummary)
    | PausedAt(position: nat)
    | CrashedAt(position: nat, message: string)
    | NoStoredState

  // ---------------------------------------------------------------------------------------
  // The loop as a function of its inputs
  // ---------------------------------------------------------------------------------------

  /** The loop's data: the state, the store, the results list, the callbacks and the positions sent. */
  datatype Loop = Loop(rec: StateRecord, store: Store, results: seq<ProcessedChunk>, events: seq<Progress>, sent: seq<nat>)

  /** One iteration either continues with new data or ends the run. */
  datatype Step = Continue(next: Loop) | Stop(outcome: RunOutcome, last: Loop)

  function ChunkIndexOf(r: ProcessedChunk): int {
    r.chunkIndex
  }

  /** A status change followed by `write_state`'s time stamp. */
  function Stamped(rec: StateRecord, status: Status, now: string): StateRecord {
    rec.(status := status, lastUpdated := now)
  }

  function ProgressOf(rec: StateRecord, kind: ProgressKind): Progress {
    Progress(|rec.completedChunks|, rec.totalChunks, kind)
  }

  /** The iteration for chunk position `i`. */
  function StepAt(chunks: seq<Chunk>, i: nat, l: Loop, remote: Remote, pauseAt: nat -> bool, now: string): Step
    requires i < |chunks|
  {
    if chunks[i].index in l.rec.completedChunks then
      Continue(l.(events := l.events + [ProgressOf(l.rec, SkippedChunk)]))
    else if pauseAt(i) then
      var paused := Stamped(l.rec, Paused, now);
      Stop(PausedAt(i), l.(rec := paused, store := l.store.Write(paused)))
    else
      var events := l.events + [ProgressOf(l.rec, ProcessingChunk)];
      var sent := l.sent + [i];
      match remote(i)
      case Success(r) =>
        var done := Completing(l.rec, r, now);
        Continue(Loop(done, l.store.Write(done), SortBy(l.results + [r], ChunkIndexOf),
                      events + [ProgressOf(done, CompletedChunk)], sent))
      case Recoverable(msg) =>
        var failed := Failing(l.rec, chunks[i].index, msg, now);
        Continue(Loop(failed, l.store.Write(failed), l.results, events, sent))
      case Fatal(msg) =>
        var failed := Failing(l.rec, chunks[i].index, msg, now);
        var crashed := Stamped(failed, Crashed, now);
        Stop(CrashedAt(i, msg), Loop(crashed, l.store.Write(failed).Write(crashed).Write(crashed), l.results, events, sent))
  }

  /** Normal exit: status `completed` is persisted and the summary built. */
  function Finish(l: Loop, model: string, now: string): (RunOutcome, Loop) {
    var done := Stamped(l.rec, Completed, now);
    (Finished(l.results, RunSummary(|l.results|, done.totalInputTokens, done.totalOutputTokens, done.actualCost,
                                    model, |done.failedChunks|)),
     l.(rec := done, store := l.store.Write(done)))
  }

  /** The rest of the run from chunk position `i`. */
  function RunFrom(chunks: seq<Chunk>, i: nat, l: Loop, remote: Remote, pauseAt: nat -> bool, model: string, now: string)
    : (RunOutcome, Loop)
    requires i <= |chunks|
    decreases |chunks| - i
  {
    if i == |chunks| then Finish(l, model, now)
    else
      match StepAt(chunks, i, l, remote, pauseAt, now)
      case Continue(next) => RunFrom(chunks, i + 1, next, remote, pauseAt, model, now)
      case Stop(outcome, last) => (outcome, last)
  }

  /** The loop's data once the stored state has been marked `processing` and persisted. */
  function Start(stored: StateRecord, store: Store, now: string): Loop {
    var rec := Stamped(stored, Processing, now);
    Loop(rec, store.Write(rec), SortBy(rec.processedResults, ChunkIndexOf), [], [])
  }

  /**
   * Before any chunk, the state is marked `processing`, stamped and written: a read then returns it,
   * the state read before sits in the backup, and nothing has been sent or reported yet.
   */
  lemma StartPersistsProcessing(stored: StateRecord, store: Store, now: string)
    requires store.Read() == Some(stored)
    ensures var l := Start(stored, store, now);
      && l.rec == stored.(status := Processing, lastUpdated := now)
      && l.store.Read() == Some(l.rec)
      && l.store.backup == store.primary
      && l.sent == [] && l.events == []
      && SortedBy(l.results, ChunkIndexOf) && multiset(l.results) == multiset(stored.processedResults)
  {
    var l := Start(stored, store, now);
    WriteThenRead(store, l.rec, l.rec);
    SortBySpec(stored.processedResults, ChunkIndexOf);
  }

  /** A whole run over a store holding a state. */
  function Run(chunks: seq<Chunk>, store: Store, remote: Remote, pauseAt: nat -> bool, model: string, now: string)
    : (RunOutcome, Loop)
    requires store.Read().Some?
  {
    RunFrom(chunks, 0, Start(store.Read().value, store, now), remote, pauseAt, model, now)
  }

  /** The outcome, the store, the callbacks and the positions sent are those of the run `run`. */
  ghost predicate Reports(run: (RunOutcome, Loop), outcome: RunOutcome, store: Store, events: seq<Progress>, sent: seq<nat>) {
    outcome == run.0 && store == run.1.store && events == run.1.events && sent == run.1.sent
  }

  /** Running from `i` is one iteration followed by the rest of the run. */
  lemma RunFromStep(chunks: seq<Chunk>, i: nat, l: Loop, remote: Remote, pauseAt: nat -> bool, model: string, now: string)
    requires i < |chunks|
    ensures RunFrom(chunks, i, l, remote, pauseAt, model, now)
      == match StepAt(chunks, i, l, remote, pauseAt, now)
         case Continue(next) => RunFrom(chunks, i + 1, next, remote, pauseAt, model, now)
         case Stop(outcome, last) => (outcome, last)
  {
  }

  // ---------------------------------------------------------------------------------------
  // What one iteration guarantees
  // ---------------------------------------------------------------------------------------

  /** The data an iteration leaves behind. */
  function After(s: Step): Loop {
    match s
    case Continue(next) => next
    case Stop(_, last) => last
  }

  /** What an iteration cannot undo: completed indices, failed indices and sent positions stay. */
  ghost predicate Extends(l: Loop, m: Loop) {
    && (forall x :: x in l.rec.completedChunks ==> x in m.rec.completedChunks)
    && (forall k :: k in l.rec.failedChunks ==> k in m.rec.failedChunks)
    && (forall p :: p in l.sent ==> p in m.sent)
  }

  /** Each iteration checkpoints what it changed and keeps the chunk count. */
  lemma StepKeeps(chunks: seq<Chunk>, i: nat, l: Loop, remote: Remote, pauseAt: nat -> bool, now: string)
    requires i < |chunks|
    requires l.store.primary == Stored(l.rec) && l.store.backup != Absent
    ensures var n := After(StepAt(chunks, i, l, remote, pauseAt, now));
      && n.store.primary == Stored(n.rec)
      && n.store.backup != Absent
      && n.rec.totalChunks == l.rec.totalChunks
  {
  }

  /** One iteration never forgets a completed index, a failed index or a sent position. */
  lemma StepExtends(chunks: seq<Chunk>, i: nat, l: Loop, remote: Remote, pauseAt: nat -> bool, now: string)
    requires i < |chunks|
    ensures Extends(l, After(StepAt(chunks, i, l, remote, pauseAt, now)))
  {
    if chunks[i].index !in l.rec.completedChunks && !pauseAt(i) && remote(i).Success? {
      WithIndexMembers(l.rec.completedChunks, remote(i).result.chunkIndex);
    }
  }

  /**
   * Which chunks are sent: a chunk whose index is already completed, or one met with the pause
   * flag set, is never sent; a sent chunk is recorded as completed or as failed.
   */
  lemma StepSends(chunks: seq<Chunk>, i: nat, l: Loop, remote: Remote, pauseAt: nat -> bool, now: string)
    requires i < |chunks|
    ensures var s := StepAt(chunks, i, l, remote, pauseAt, now);
      var n := After(s);
      && (n.sent == l.sent || n.sent == l.sent + [i])
      && (n.sent == l.sent + [i] ==> chunks[i].index !in l.rec.completedChunks && !pauseAt(i))
      && (n.sent == l.sent + [i] && remote(i).Success? ==> remote(i).result.chunkIndex in n.rec.completedChunks)
      && (n.sent == l.sent + [i] && !remote(i).Success? ==> chunks[i].index in n.rec.failedChunks)
      && (n.sent == l.sent ==> chunks[i].index in l.rec.completedChunks || s == Stop(PausedAt(i), n))
  {
    if chunks[i].index !in l.rec.completedChunks && !pauseAt(i) && remote(i).Success? {
      WithIndexMembers(l.rec.completedChunks, remote(i).result.chunkIndex);
    }
  }

  /** How an iteration can end the run, and with what persisted status. */
  lemma StepStops(chunks: seq<Chunk>, i: nat, l: Loop, remote: Remote, pauseAt: nat -> bool, now: string)
    requires i < |chunks|
    ensures match StepAt(chunks, i, l, remote, pauseAt, now)
      case Continue(n) => n.rec.status == l.rec.status
      case Stop(PausedAt(p), n) =>
        p == i && pauseAt(i) && chunks[i].index !in n.rec.completedChunks && n.sent == l.sent && n.rec.status == Paused
      case Stop(CrashedAt(p, m), n) =>
        p == i && remote(i) == Fatal(m) && n.sent == l.sent + [i] && n.rec.status == Crashed
        && chunks[i].index in n.rec.failedChunks && n.rec.failedChunks[chunks[i].index] == m
      case Stop(_, _) => false
  {
  }

  /** The successful results of the sent positions, in sending order. */
  ghost function SuccessResults(remote: Remote, sent: seq<nat>): seq<ProcessedChunk> {
    if sent == [] then []
    else
      var last := sent[|sent| - 1];
      SuccessResults(remote, sent[..|sent| - 1]) + (if remote(last).Success? then [remote(last).result] else [])
  }

  /** The results list is sorted by chunk index and holds `base` plus the result of every successful send. */
  ghost predicate Accounted(remote: Remote, base: multiset<ProcessedChunk>, l: Loop) {
    && SortedBy(l.results, ChunkIndexOf)
    && multiset(l.results) == base + multiset(SuccessResults(remote, l.sent))
  }

  /** Each iteration keeps the results list accounted for. */
  lemma StepResults(chunks: seq<Chunk>, i: nat, l: Loop, remote: Remote, pauseAt: nat -> bool, now: string,
                    base: multiset<ProcessedChunk>)
    requires i < |chunks|
    requires Accounted(remote, base, l)
    ensures Accounted(remote, base, After(StepAt(chunks, i, l, remote, pauseAt, now)))
  {
    var n := After(StepAt(chunks, i, l, remote, pauseAt, now));
    if n.sent == l.sent + [i] {
      assert (l.sent + [i])[..|l.sent|] == l.sent;
      if remote(i).Success? {
        var r := remote(i).result;
        AppendSortIsInsert(l.results, r, ChunkIndexOf);
        InsertBySpec(l.results, r, ChunkIndexOf);
      }
    }
  }

  /** Each iteration keeps the bookkeeping of the state intact. */
  lemma StepWellKept(chunks: seq<Chunk>, i: nat, l: Loop, remote: Remote, pauseAt: nat -> bool, now: string)
    requires i < |chunks|
    requires WellKept(l.rec)
    ensures WellKept(After(StepAt(chunks, i, l, remote, pauseAt, now)).rec)
  {
    if chunks[i].index !in l.rec.completedChunks && !pauseAt(i) && remote(i).Success? {
      CompletingSpec(l.rec, remote(i).result, now);
    }
  }

  // ---------------------------------------------------------------------------------------
  // What a run guarantees
  // ---------------------------------------------------------------------------------------

  /** A property of the loop's data that every iteration and the normal exit keep holds at the end of a run. */
  lemma {:induction false} RunKeeps(chunks: seq<Chunk>, i: nat, l: Loop, remote: Remote, pauseAt: nat -> bool,
                                    model: string, now: string, inv: Loop -> bool)
    requires i <= |chunks|
    requires inv(l)
    requires forall j: nat, m: Loop :: i <= j < |chunks| && inv(m) ==> inv(After(StepAt(chunks, j, m, remote, pauseAt, now)))
    requires forall m: Loop :: inv(m) ==> inv(Finish(m, model, now).1)
    ensures inv(RunFrom(chunks, i, l, remote, pauseAt, model, now).1)
    decreases |chunks| - i
  {
    if i < |chunks| {
      match StepAt(chunks, i, l, remote, pauseAt, now)
      case Continue(next) =>
        RunKeeps(chunks, i + 1, next, remote, pauseAt, model, now, inv);
      case Stop(_, _) =>
    }
  }

  /**
   * A run always leaves the store holding its final state over a backup, the persisted status says
   * how it ended, and the chunk count never changes.
   */
  lemma {:induction false} RunCheckpoints(chunks: seq<Chunk>, i: nat, l: Loop, remote: Remote, pauseAt: nat -> bool,
                                          model: string, now: string)
    requires i <= |chunks|
    requires l.store.primary == Stored(l.rec) && l.store.backup != Absent
    ensures var (o, f) := RunFrom(chunks, i, l, remote, pauseAt, model, now);
      && f.store.primary == Stored(f.rec)
      && f.store.backup != Absent
      && !o.NoStoredState?
      && (o.Finished? ==> f.rec.status == Completed)
      && (o.PausedAt? ==> f.rec.status == Paused)
      && (o.CrashedAt? ==> f.rec.status == Crashed)
      && f.rec.totalChunks == l.rec.totalChunks
    decreases |chunks| - i
  {
    if i < |chunks| {
      StepKeeps(chunks, i, l, remote, pauseAt, now);
      StepStops(chunks, i, l, remote, pauseAt, now);
      match StepAt(chunks, i, l, remote, pauseAt, now)
      case Continue(next) =>
        RunCheckpoints(chunks, i + 1, next, remote, pauseAt, model, now);
      case Stop(_, _) =>
    }
  }

  /** Completed and failed indices and sent positions survive the rest of a run. */
  lemma KeepsAlong(chunks: seq<Chunk>, i: nat, l: Loop, remote: Remote, pauseAt: nat -> bool, model: string, now: string)
    requires i <= |chunks|
    ensures Extends(l, RunFrom(chunks, i, l, remote, pauseAt, model, now).1)
  {
    forall j: nat, m: Loop | i <= j < |chunks| && Extends(l, m)
      ensures Extends(l, After(StepAt(chunks, j, m, remote, pauseAt, now)))
    {
      StepExtends(chunks, j, m, remote, pauseAt, now);
    }
    RunKeeps(chunks, i, l, remote, pauseAt, model, now, m => Extends(l, m));
  }

  /**
   * Every position sent after `l` is at or after `i`; its chunk index was not completed in `l`,
   * the pause flag was clear, and the chunk is now recorded as completed (success) or failed.
   */
  ghost predicate SentWell(chunks: seq<Chunk>, i: nat, l: Loop, remote: Remote, pauseAt: nat -> bool, m: Loop) {
    && Extends(l, m)
    && forall p :: p in m.sent ==> (p in l.sent ||
        (&& i <= p < |chunks|
         && chunks[p].index !in l.rec.completedChunks
         && !pauseAt(p)
         && (remote(p).Success? ==> remote(p).result.chunkIndex in m.rec.completedChunks)
         && (!remote(p).Success? ==> chunks[p].index in m.rec.failedChunks)))
  }

  /** One iteration from position `j >= i` keeps `SentWell`. */
  lemma StepSentWell(chunks: seq<Chunk>, i: nat, l: Loop, remote: Remote, pauseAt: nat -> bool, now: string, j: nat, m: Loop)
    requires i <= j < |chunks|
    requires SentWell(chunks, i, l, remote, pauseAt, m)
    ensures SentWell(chunks, i, l, remote, pauseAt, After(StepAt(chunks, j, m, remote, pauseAt, now)))
  {
    StepExtends(chunks, j, m, remote, pauseAt, now);
    StepSends(chunks, j, m, remote, pauseAt, now);
  }

  /** Only chunks that still needed work are sent, and each sent chunk ends up completed or failed. */
  lemma RunSends(chunks: seq<Chunk>, i: nat, l: Loop, remote: Remote, pauseAt: nat -> bool, model: string, now: string)
    requires i <= |chunks|
    ensures SentWell(chunks, i, l, remote, pauseAt, RunFrom(chunks, i, l, remote, pauseAt, model, now).1)
  {
    forall j: nat, m: Loop | i <= j < |chunks| && SentWell(chunks, i, l, remote, pauseAt, m)
      ensures SentWell(chunks, i, l, remote, pauseAt, After(StepAt(chunks, j, m, remote, pauseAt, now)))
    {
      StepSentWell(chunks, i, l, remote, pauseAt, now, j, m);
    }
    RunKeeps(chunks, i, l, remote, pauseAt, model, now, m => SentWell(chunks, i, l, remote, pauseAt, m));
  }

  /**
   * How a run stops early: a pause stops before chunk `s` (flag set, chunk not completed) and
   * nothing at or after `s` is sent; a fatal failure of chunk `s` is recorded with its message
   * and nothing after `s` is sent.
   */
  lemma {:induction false} RunStops(chunks: seq<Chunk>, i: nat, l: Loop, remote: Remote, pauseAt: nat -> bool,
                                    model: string, now: string)
    requires i <= |chunks|
    ensures var (o, f) := RunFrom(chunks, i, l, remote, pauseAt, model, now);
      && (o.PausedAt? ==>
            && i <= o.position < |chunks| && pauseAt(o.position)
            && chunks[o.position].index !in f.rec.completedChunks
            && forall p :: p in f.sent ==> p in l.sent || p < o.position)
      && (o.CrashedAt? ==>
            && i <= o.position < |chunks| && remote(o.position) == Fatal(o.message)
            && o.position in f.sent
            && chunks[o.position].index in f.rec.failedChunks
            && f.rec.failedChunks[chunks[o.position].index] == o.message
            && forall p :: p in f.sent ==> p in l.sent || p <= o.position)
    decreases |chunks| - i
  {
    if i < |chunks| {
      StepStops(chunks, i, l, remote, pauseAt, now);
      StepSends(chunks, i, l, remote, pauseAt, now);
      match StepAt(chunks, i, l, remote, pauseAt, now)
      case Continue(next) =>
        RunStops(chunks, i + 1, next, remote, pauseAt, model, now);
      case Stop(_, _) =>
    }
  }

  /**
   * On normal exit every chunk from `i` on was either sent or already completed, and the summary
   * counts the results and the recorded failures and carries the state's totals.
   */
  lemma {:induction false} RunFinishes(chunks: seq<Chunk>, i: nat, l: Loop, remote: Remote, pauseAt: nat -> bool,
                                       model: string, now: string)
    requires i <= |chunks|
    ensures var (o, f) := RunFrom(chunks, i, l, remote, pauseAt, model, now);
      o.Finished? ==>
        && o.results == f.results
        && o.summary.chunksProcessed == |o.results|
        && o.summary.failedChunks == |f.rec.failedChunks|
        && o.summary.totalCost == f.rec.actualCost
        && o.summary.totalInputTokens == f.rec.totalInputTokens
        && o.summary.totalOutputTokens == f.rec.totalOutputTokens
        && o.summary.model == model
        && forall p :: i <= p < |chunks| ==> p in f.sent || chunks[p].index in f.rec.completedChunks
    decreases |chunks| - i
  {
    RunSummarized(chunks, i, l, remote, pauseAt, model, now);
    RunSendsAll(chunks, i, l, remote, pauseAt, model, now);
  }

  /** On normal exit the summary counts the results and the recorded failures and carries the state's totals. */
  lemma {:induction false} RunSummarized(chunks: seq<Chunk>, i: nat, l: Loop, remote: Remote, pauseAt: nat -> bool,
                                         model: string, now: string)
    requires i <= |chunks|
    ensures var (o, f) := RunFrom(chunks, i, l, remote, pauseAt, model, now);
      o.Finished? ==>
        && o.results == f.results
        && o.summary.chunksProcessed == |o.results|
        && o.summary.failedChunks == |f.rec.failedChunks|
        && o.summary.totalCost == f.rec.actualCost
        && o.summary.totalInputTokens == f.rec.totalInputTokens
        && o.summary.totalOutputTokens == f.rec.totalOutputTokens
        && o.summary.model == model
    decreases |chunks| - i
  {
    if i < |chunks| {
      RunFromStep(chunks, i, l, remote, pauseAt, model, now);
      StepStops(chunks, i, l, remote, pauseAt, now);
      var s := StepAt(chunks, i, l, remote, pauseAt, now);
      if s.Continue? {
        RunSummarized(chunks, i + 1, s.next, remote, pauseAt, model, now);
      }
    }
  }

  /** On normal exit every chunk from `i` on was either sent or already completed. */
  lemma {:induction false} RunSendsAll(chunks: seq<Chunk>, i: nat, l: Loop, remote: Remote, pauseAt: nat -> bool,
                                       model: string, now: string)
    requires i <= |chunks|
    ensures var (o, f) := RunFrom(chunks, i, l, remote, pauseAt, model, now);
      o.Finished? ==> forall p :: i <= p < |chunks| ==> p in f.sent || chunks[p].index in f.rec.completedChunks
    decreases |chunks| - i
  {
    if i < |chunks| {
      RunFromStep(chunks, i, l, remote, pauseAt, model, now);
      var s := StepAt(chunks, i, l, remote, pauseAt, now);
      if s.Stop? {
        StepStops(chunks, i, l, remote, pauseAt, now);
      } else {
        RunSendsAll(chunks, i + 1, s.next, remote, pauseAt, model, now);
        StepCovers(chunks, i, l, remote, pauseAt, now);
        CoveredAlong(chunks, i + 1, s.next, remote, pauseAt, model, now, i, chunks[i].index);
      }
    }
  }

  /** An iteration that continues has either sent position `i` or found its chunk completed. */
  lemma StepCovers(chunks: seq<Chunk>, i: nat, l: Loop, remote: Remote, pauseAt: nat -> bool, now: string)
    requires i < |chunks|
    ensures var s := StepAt(chunks, i, l, remote, pauseAt, now);
      s.Continue? ==> i in s.next.sent || chunks[i].index in s.next.rec.completedChunks
  {
    StepSends(chunks, i, l, remote, pauseAt, now);
    StepExtends(chunks, i, l, remote, pauseAt, now);
  }

  /** A position sent, or a chunk index completed, stays so for the rest of the run. */
  lemma CoveredAlong(chunks: seq<Chunk>, i: nat, l: Loop, remote: Remote, pauseAt: nat -> bool, model: string,
                     now: string, p: nat, index: int)
    requires i <= |chunks|
    requires p in l.sent || index in l.rec.completedChunks
    ensures var f := RunFrom(chunks, i, l, remote, pauseAt, model, now).1;
      p in f.sent || index in f.rec.completedChunks
  {
    KeepsAlong(chunks, i, l, remote, pauseAt, model, now);
  }

  /** The returned results stay sorted by chunk index and are `base` plus every success. */
  lemma RunResults(chunks: seq<Chunk>, l: Loop, remote: Remote, pauseAt: nat -> bool,
                   model: string, now: string, base: multiset<ProcessedChunk>)
    requires Accounted(remote, base, l)
    ensures Accounted(remote, base, RunFrom(chunks, 0, l, remote, pauseAt, model, now).1)
  {
    forall j: nat, m: Loop | j < |chunks| && Accounted(remote, base, m)
      ensures Accounted(remote, base, After(StepAt(chunks, j, m, remote, pauseAt, now)))
    {
      StepResults(chunks, j, m, remote, pauseAt, now, base);
    }
    RunKeeps(chunks, 0, l, remote, pauseAt, model, now, m => Accounted(remote, base, m));
  }

  /** A run keeps the state's bookkeeping: completed indices ascending without repeats, one cached result per index. */
  lemma RunWellKept(chunks: seq<Chunk>, l: Loop, remote: Remote, pauseAt: nat -> bool, model: string, now: string)
    requires WellKept(l.rec)
    ensures WellKept(RunFrom(chunks, 0, l, remote, pauseAt, model, now).1.rec)
  {
    forall j: nat, m: Loop | j < |chunks| && WellKept(m.rec)
      ensures WellKept(After(StepAt(chunks, j, m, remote, pauseAt, now)).rec)
    {
      StepWellKept(chunks, j, m, remote, pauseAt, now);
    }
    RunKeeps(chunks, 0, l, remote, pauseAt, model, now, (m: Loop) => WellKept(m.rec));
  }

  /**
   * `process_all_chunks` over a store holding a state: it persists `processing` first, sends only
   * chunks whose index the stored state had not completed and only while the pause flag is clear,
   * and ends with the store holding the final state over a backup, with the status telling how it
   * ended; on normal exit every chunk was sent or already completed, and the results are sorted by
   * chunk index and are the cached results plus every success.
   */
  lemma RunGuarantees(chunks: seq<Chunk>, store: Store, remote: Remote, pauseAt: nat -> bool, model: string, now: string)
    requires store.Read().Some?
    ensures var stored := store.Read().value;
      var (o, f) := Run(chunks, store, remote, pauseAt, model, now);
      && f.store.primary == Stored(f.rec)
      && f.store.backup != Absent
      && f.rec.totalChunks == stored.totalChunks
      && (o.Finished? ==> f.rec.status == Completed)
      && (o.PausedAt? ==> f.rec.status == Paused)
      && (o.CrashedAt? ==> f.rec.status == Crashed)
      && (forall p :: p in f.sent ==> 0 <= p < |chunks| && chunks[p].index !in stored.completedChunks && !pauseAt(p))
      && (o.Finished? ==> forall p :: 0 <= p < |chunks| ==> p in f.sent || chunks[p].index in f.rec.completedChunks)
      && (o.Finished? ==> SortedBy(o.results, ChunkIndexOf)
                          && multiset(o.results) == multiset(stored.processedResults) + multiset(SuccessResults(remote, f.sent)))
      && (WellKept(stored) ==> WellKept(f.rec))
      && var l := Start(stored, store, now);
         && l.store.Read() == Some(stored.(status := Processing, lastUpdated := now))
         && l.store.backup == store.primary
         && l.sent == [] && l.events == []
         && Run(chunks, store, remote, pauseAt, model, now) == RunFrom(chunks, 0, l, remote, pauseAt, model, now)
  {
    var stored := store.Read().value;
    var l := Start(stored, store, now);
    StartPersistsProcessing(stored, store, now);
    RunCheckpoints(chunks, 0, l, remote, pauseAt, model, now);
    RunSends(chunks, 0, l, remote, pauseAt, model, now);
    RunFinishes(chunks, 0, l, remote, pauseAt, model, now);
    SortBySpec(l.rec.processedResults, ChunkIndexOf);
    RunResults(chunks, l, remote, pauseAt, model, now, multiset(stored.processedResults));
    if WellKept(stored) {
      RunWellKept(chunks, l, remote, pauseAt, model, now);
    }
  }

  // ---------------------------------------------------------------------------------------
  // The runner object
  // ---------------------------------------------------------------------------------------

  /** The configuration snapshot `start_new_job` stores. */
  function ConfigFor(processor: Processor, outputLanguage: string): JobConfig {
    JobConfig(processor.model, processor.provider, outputLanguage, processor.temperature, processor.maxTokens)
  }

  class ResumableProcessor {
    const processor: Processor
    const stateManager: StateManager
    /** The `pause_event` flag. */
    var pauseRequested: bool
    var isProcessing: bool

    constructor(processor: Processor, stateManager: StateManager)
      ensures this.processor == processor && this.stateManager == stateManager
      ensures !pauseRequested && !isProcessing
    {
      this.processor := processor;
      this.stateManager := stateManager;
      pauseRequested := false;
      isProcessing := false;
    }

    /** Clears the store, then persists a new idle state for `|chunks|` chunks with the configuration snapshot. */
    method StartNewJob(chunks: seq<Chunk>, fileName: string, videoTitle: string, promptTemplate: string,
                       outputLanguage: string, estimatedCost: real, fileId: string, now: string)
      returns (state: ProcessingState)
      modifies stateManager
      ensures fresh(state)
      ensures state.Snapshot()
        == NewRecord(fileId, fileName, videoTitle, |chunks|, ConfigFor(processor, outputLanguage), estimatedCost, now)
      ensures stateManager.store == Store(Stored(state.Snapshot()), Absent)
    {
      stateManager.ClearState();
      state := stateManager.CreateNewState(fileName, videoTitle, |chunks|, ConfigFor(processor, outputLanguage),
                                           estimatedCost, fileId, now);
      state.status := Idle;
      stateManager.WriteState(state, now);
    }

    /** The stored state if there is one and it is resumable, else nothing. */
    method ResumeFromState() returns (state: ProcessingState?)
      ensures state != null <==> stateManager.store.Read().Some? && Resumable(stateManager.store.Read().value)
      ensures state != null ==> fresh(state) && state.Snapshot() == stateManager.store.Read().value
    {
      state := stateManager.ReadState();
      if state == null || !state.IsResumable() {
        return null;
      }
    }

    /** Request a pause; it takes effect before the next chunk that still needs work. */
    method Pause()
      modifies this
      ensures pauseRequested && isProcessing == old(isProcessing)
    {
      pauseRequested := true;
    }

    /** Sets the status and persists the state. */
    method Checkpoint(state: ProcessingState, status: Status, now: string)
      modifies state, stateManager
      ensures state.Snapshot() == Stamped(old(state.Snapshot()), status, now)
      ensures stateManager.store == old(stateManager.store).Write(state.Snapshot())
    {
      state.status := status;
      stateManager.WriteState(state, now);
    }

    /** Merges a successful result into the state and persists it. */
    method MergeSuccess(state: ProcessingState, result: ProcessedChunk, now: string)
      modifies state, stateManager
      ensures state.Snapshot() == Completing(old(state.Snapshot()), result, now)
      ensures stateManager.store == old(stateManager.store).Write(state.Snapshot())
    {
      state.AddCompletedChunk(result, now);
      stateManager.WriteState(state, now);
    }

    /** Records a failure in the state and persists it. */
    method RecordFailure(state: ProcessingState, chunkIndex: int, message: string, now: string)
      modifies state, stateManager
      ensures state.Snapshot() == Failing(old(state.Snapshot()), chunkIndex, message, now)
      ensures stateManager.store == old(stateManager.store).Write(state.Snapshot())
    {
      state.AddFailedChunk(chunkIndex, message, now);
      stateManager.WriteState(state, now);
    }

    /** The pause branch: persist status `paused` before chunk `i`. */
    method PauseBefore(state: ProcessingState, chunks: seq<Chunk>, i: nat, results: seq<ProcessedChunk>,
                       events: seq<Progress>, ghost sent: seq<nat>, remote: Remote, pauseAt: nat -> bool, now: string)
      requires i < |chunks| && chunks[i].index !in state.completedChunks && pauseAt(i)
      modifies state, stateManager
      ensures StepAt(chunks, i, Loop(old(state.Snapshot()), old(stateManager.store), results, events, sent), remote, pauseAt, now)
        == Stop(PausedAt(i), Loop(state.Snapshot(), stateManager.store, results, events, sent))
    {
      Checkpoint(state, Paused, now);
    }

    /** One iteration that neither skips nor pauses: announce, send chunk `i`, handle and persist its outcome. */
    method SendChunk(state: ProcessingState, chunks: seq<Chunk>, i: nat, results: seq<ProcessedChunk>,
                     events: seq<Progress>, ghost sent: seq<nat>, remote: Remote, pauseAt: nat -> bool, now: string)
      returns (stop: bool, outcome: RunOutcome, results': seq<ProcessedChunk>, events': seq<Progress>, ghost sent': seq<nat>)
      requires i < |chunks| && chunks[i].index !in state.completedChunks && !pauseAt(i)
      modifies state, stateManager
      ensures var n := Loop(state.Snapshot(), stateManager.store, results', events', sent');
        StepAt(chunks, i, Loop(old(state.Snapshot()), old(stateManager.store), results, events, sent), remote, pauseAt, now)
        == if stop then Stop(outcome, n) else Continue(n)
    {
      events' := events + [Progress(|state.completedChunks|, state.totalChunks, ProcessingChunk)];
      sent' := sent + [i];
      results' := results;
      stop, outcome := false, NoStoredState;
      match remote(i)
      case Success(result) =>
        results' := SortBy(results + [result], ChunkIndexOf);
        MergeSuccess(state, result, now);
        events' := events' + [Progress(|state.completedChunks|, state.totalChunks, CompletedChunk)];
      case Recoverable(message) =>
        RecordFailure(state, chunks[i].index, message, now);
      case Fatal(message) =>
        RecordFailure(state, chunks[i].index, message, now);
        Checkpoint(state, Crashed, now);
        // the outer handler marks the state crashed again and persists it
        Checkpoint(state, Crashed, now);
        stop, outcome := true, CrashedAt(i, message);
    }

    /**
     * `process_all_chunks`.  Without a stored state it raises `ValueError` and leaves the store
     * (and the processing flag) as they were; otherwise it runs exactly as `Run` describes.
     */
    method ProcessAllChunks(chunks: seq<Chunk>, promptTemplate: string, videoTitle: string, outputLanguage: string,
                            resume: bool, remote: Remote, pauseAt: nat -> bool, now: string)
      returns (outcome: RunOutcome, events: seq<Progress>, ghost sent: seq<nat>)
      modifies this, stateManager
      ensures old(stateManager.store.Read()).None? ==>
        outcome == NoStoredState && stateManager.store == old(stateManager.store) && isProcessing && !pauseRequested
      ensures old(stateManager.store.Read()).Some? ==>
        Reports(Run(chunks, old(stateManager.store), remote, pauseAt, processor.model, now), outcome, stateManager.store, events, sent)
        && !isProcessing
    {
      isProcessing := true;
      pauseRequested := false;
      events, sent := [], [];

      var state: ProcessingState? := null;
      var resuming := resume;
      if resuming {
        state := stateManager.ReadState();
        if state == null || !state.IsResumable() {
          resuming := false;
        }
      }
      if !resuming {
        state := stateManager.ReadState();
        if state == null {
          return NoStoredState, events, sent;
        }
      }
      ghost var start := Start(state.Snapshot(), stateManager.store, now);
      assert stateManager.store == old(stateManager.store);
      ghost var run := Run(chunks, stateManager.store, remote, pauseAt, processor.model, now);

      Checkpoint(state, Processing, now);
      var results := SortBy(state.processedResults, ChunkIndexOf);
      assert Loop(state.Snapshot(), stateManager.store, results, events, sent) == start;

      for i := 0 to |chunks|
        invariant !pauseRequested
        invariant RunFrom(chunks, i, Loop(state.Snapshot(), stateManager.store, results, events, sent),
                          remote, pauseAt, processor.model, now) == run
      {
        ghost var before := Loop(state.Snapshot(), stateManager.store, results, events, sent);
        if chunks[i].index in state.completedChunks {
          events := events + [Progress(|state.completedChunks|, state.totalChunks, SkippedChunk)];
          RunFromStep(chunks, i, before, remote, pauseAt, processor.model, now);
          continue;
        }
        if pauseAt(i) {
          Pause();
        }
        if pauseRequested {
          PauseBefore(state, chunks, i, results, events, sent, remote, pauseAt, now);
          RunFromStep(chunks, i, before, remote, pauseAt, processor.model, now);
          isProcessing := false;
          assert Reports(run, PausedAt(i), stateManager.store, events, sent);
          return PausedAt(i), events, sent;
        }
        var stop;
        stop, outcome, results, events, sent := SendChunk(state, chunks, i, results, events, sent, remote, pauseAt, now);
        RunFromStep(chunks, i, before, remote, pauseAt, processor.model, now);
        if stop {
          isProcessing := false;
          assert Reports(run, outcome, stateManager.store, events, sent);
          return;
        }
      }

      Checkpoint(state, Completed, now);
      outcome := Finished(results, RunSummary(|results|, state.totalInputTokens, state.totalOutputTokens,
                                              state.actualCost, processor.model, |state.failedChunks|));
      isProcessing := false;
      assert Reports(run, outcome, stateManager.store, events, sent);
    }
  }
}
