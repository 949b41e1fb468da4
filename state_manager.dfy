/**
 * The job state and its store.  A `ProcessingState` records which chunk indices are done or
 * failed, caches the results (one per index) and accumulates cost and token totals; the
 * `StateManager` keeps the serialised state in a primary slot with a backup slot behind it.
 * The two files are modelled as two slots that are absent, undecodable or hold a record.
 */
module StateManagement {
  import opened Wrappers
  import opened Sorting
  import opened LlmProcessing

  const StateVersion: string := "1.0"

  /** The job status strings `idle`, `processing`, `paused`, `completed`, `crashed`. */
  datatype Status = Idle | Processing | Paused | Completed | Crashed

  /** The configuration snapshot stored with a job. */
  datatype JobConfig = JobConfig(model: string, provider: string, outputLanguage: string, temperature: real, maxTokens: nat)

  /** The state as a value: what `to_dict` produces and the store holds. */
  datatype StateRecord = StateRecord(
    version: string,
    fileId: string,
    fileName: string,
    videoTitle: string,
    status: Status,
    startedAt: string,
    lastUpdated: string,
    config: JobConfig,
    totalChunks: int,
    completedChunks: seq<int>,
    failedChunks: map<int, string>,
    processedResults: seq<ProcessedChunk>,
    estimatedCost: real,
    actualCost: real,
    totalInputTokens: int,
    totalOutputTokens: int)

  // ---------------------------------------------------------------------------------------
  // Queries
  // ---------------------------------------------------------------------------------------

  /** `is_resumable`: an active (processing or paused) job with fewer completions than chunks. */
  predicate Resumable(r: StateRecord) {
    (r.status == Processing || r.status == Paused) && |r.completedChunks| < r.totalChunks
  }

  /** The indices from `k` below `total` that are neither completed nor failed, ascending. */
  function RemainingFrom(k: nat, total: int, completed: seq<int>, failed: map<int, string>): seq<int>
    decreases total - k
  {
    if k >= total then []
    else (if k in completed || k in failed then [] else [k]) + RemainingFrom(k + 1, total, completed, failed)
  }

  /** `get_remaining_chunks` (failed keys are the chunk indices themselves). */
  function RemainingChunks(r: StateRecord): seq<int> {
    RemainingFrom(0, r.totalChunks, r.completedChunks, r.failedChunks)
  }

  lemma {:induction false} RemainingFromSpec(k: nat, total: int, completed: seq<int>, failed: map<int, string>)
    ensures var r := RemainingFrom(k, total, completed, failed);
      && StrictlyIncreasing(r)
      && (forall i :: 0 <= i < |r| ==> k <= r[i])
      && (forall x :: x in r <==> k <= x < total && x !in completed && x !in failed)
    decreases total - k
  {
    if k < total {
      var rest := RemainingFrom(k + 1, total, completed, failed);
      var head := if k in completed || k in failed then [] else [k];
      RemainingFromSpec(k + 1, total, completed, failed);
      assert RemainingFrom(k, total, completed, failed) == head + rest;
      IncreasingAfter(head, k, rest);
      forall x
        ensures x in head + rest <==> k <= x < total && x !in completed && x !in failed
      {
        assert x in head <==> x == k && k !in completed && k !in failed;
      }
    }
  }

  /** At most `k` itself, put before increasing values above `k`, keeps them increasing and at least `k`. */
  lemma IncreasingAfter(head: seq<int>, k: int, rest: seq<int>)
    requires head == [] || head == [k]
    requires StrictlyIncreasing(rest) && forall i :: 0 <= i < |rest| ==> k + 1 <= rest[i]
    ensures StrictlyIncreasing(head + rest)
    ensures forall i :: 0 <= i < |head + rest| ==> k <= (head + rest)[i]
    ensures forall x :: x in head + rest <==> x in head || x in rest
  {
    if head == [k] {
      forall i, j | 0 <= i < j < |head + rest|
        ensures (head + rest)[i] < (head + rest)[j]
      {
        if i > 0 {
          assert (head + rest)[i] == rest[i - 1];
        }
        assert (head + rest)[j] == rest[j - 1];
      }
    } else {
      assert head + rest == rest;
    }
  }

  /** The remaining indices are ascending and are exactly those in range, not completed and not failed. */
  lemma RemainingChunksSpec(r: StateRecord)
    ensures StrictlyIncreasing(RemainingChunks(r))
    ensures forall x :: x in RemainingChunks(r) <==>
      0 <= x < r.totalChunks && x !in r.completedChunks && x !in r.failedChunks
  {
    RemainingFromSpec(0, r.totalChunks, r.completedChunks, r.failedChunks);
  }

  /** A sequence has at least as many positions as distinct elements. */
  lemma {:induction false} ElementsBound(s: seq<int>)
    ensures |set x | x in s| <= |s|
  {
    if s != [] {
      ElementsBound(s[1..]);
      assert (set x | x in s) == {s[0]} + (set x | x in s[1..]);
    }
  }

  /** The set `{0, ..., n - 1}`. */
  ghost function Range(n: nat): set<int> {
    if n == 0 then {} else Range(n - 1) + {n - 1}
  }

  /** The range holds exactly `[0, n)` and has `n` elements. */
  lemma {:induction false} RangeSpec(n: nat)
    ensures forall x :: x in Range(n) <==> 0 <= x < n
    ensures |Range(n)| == n
  {
    if n > 0 {
      RangeSpec(n - 1);
    }
  }

  /** A resumable job has at least one index in range that is not completed. */
  lemma ResumableLeavesWork(r: StateRecord)
    requires Resumable(r)
    ensures exists x :: 0 <= x < r.totalChunks && x !in r.completedChunks
  {
    if forall x :: 0 <= x < r.totalChunks ==> x in r.completedChunks {
      RangeSpec(r.totalChunks);
      var range := Range(r.totalChunks);
      var done := set x | x in r.completedChunks;
      assert range <= done;
      assert done == range + (done - range);
      ElementsBound(r.completedChunks);
      assert false;
    }
  }

  /** So a resumable job with no recorded failure has chunks left to process. */
  lemma ResumableWithoutFailuresHasRemaining(r: StateRecord)
    requires Resumable(r) && r.failedChunks == map[]
    ensures RemainingChunks(r) != []
  {
    ResumableLeavesWork(r);
    var x :| 0 <= x < r.totalChunks && x !in r.completedChunks;
    RemainingChunksSpec(r);
    assert x in RemainingChunks(r);
  }

  // ---------------------------------------------------------------------------------------
  // The result cache: one entry per chunk index, replaced in place or appended
  // ---------------------------------------------------------------------------------------

  /** The first position at or after `k` whose entry has chunk index `idx`. */
  function FirstWithIndex(rs: seq<ProcessedChunk>, idx: int, k: nat): (r: Option<nat>)
    requires k <= |rs|
    ensures r.Some? ==> k <= r.value < |rs| && rs[r.value].chunkIndex == idx
    decreases |rs| - k
  {
    if k == |rs| then None
    else if rs[k].chunkIndex == idx then Some(k)
    else FirstWithIndex(rs, idx, k + 1)
  }

  lemma {:induction false} FirstWithIndexSpec(rs: seq<ProcessedChunk>, idx: int, k: nat)
    requires k <= |rs|
    ensures var r := FirstWithIndex(rs, idx, k);
      && (r.None? <==> forall j :: k <= j < |rs| ==> rs[j].chunkIndex != idx)
      && (r.Some? ==> forall j :: k <= j < r.value ==> rs[j].chunkIndex != idx)
    decreases |rs| - k
  {
    if k < |rs| && rs[k].chunkIndex != idx {
      FirstWithIndexSpec(rs, idx, k + 1);
    }
  }

  /** Replace the first entry with the result's index, else append the result. */
  function Upsert(rs: seq<ProcessedChunk>, r: ProcessedChunk): seq<ProcessedChunk> {
    match FirstWithIndex(rs, r.chunkIndex, 0)
    case Some(i) => rs[i := r]
    case None => rs + [r]
  }

  /** No two cached entries share a chunk index. */
  ghost predicate UniqueIndices(rs: seq<ProcessedChunk>) {
    forall i, j :: 0 <= i < j < |rs| ==> rs[i].chunkIndex != rs[j].chunkIndex
  }

  /**
   * The upsert holds the new result, keeps every entry for another index, adds nothing else, and
   * keeps the cache at one entry per index; without an entry for the index it appends.
   */
  lemma UpsertSpec(rs: seq<ProcessedChunk>, r: ProcessedChunk)
    ensures r in Upsert(rs, r)
    ensures forall x :: x in Upsert(rs, r) ==> x == r || x in rs
    ensures forall x :: x in rs && x.chunkIndex != r.chunkIndex ==> x in Upsert(rs, r)
    ensures UniqueIndices(rs) ==> UniqueIndices(Upsert(rs, r))
    ensures (forall j :: 0 <= j < |rs| ==> rs[j].chunkIndex != r.chunkIndex) ==> Upsert(rs, r) == rs + [r]
  {
    FirstWithIndexSpec(rs, r.chunkIndex, 0);
    var u := Upsert(rs, r);
    match FirstWithIndex(rs, r.chunkIndex, 0)
    case Some(i) =>
      assert u[i] == r;
      forall x | x in u
        ensures x == r || x in rs
      {
        var k :| 0 <= k < |u| && u[k] == x;
        if k != i {
          assert rs[k] == x;
        }
      }
      forall x | x in rs && x.chunkIndex != r.chunkIndex
        ensures x in u
      {
        var k :| 0 <= k < |rs| && rs[k] == x;
        assert u[k] == x;
      }
      if UniqueIndices(rs) {
        forall a, b | 0 <= a < b < |u|
          ensures u[a].chunkIndex != u[b].chunkIndex
        {
          if a != i && b != i {
            assert u[a] == rs[a] && u[b] == rs[b];
          } else if a == i {
            assert u[b] == rs[b] && rs[i].chunkIndex == r.chunkIndex;
          } else {
            assert u[a] == rs[a] && rs[i].chunkIndex == r.chunkIndex;
          }
        }
      }
    case None =>
      assert u[|rs|] == r;
  }

  /** `completed_chunks` after completing `idx`: unchanged if present, else appended and sorted. */
  function WithIndex(completed: seq<int>, idx: int): seq<int> {
    if idx in completed then completed else SortBy(completed + [idx], Identity)
  }

  /** Completing `idx` adds exactly `idx` to the index list. */
  lemma WithIndexMembers(completed: seq<int>, idx: int)
    ensures forall x :: x in WithIndex(completed, idx) <==> x in completed || x == idx
  {
    if idx !in completed {
      SortBySpec(completed + [idx], Identity);
      var w := WithIndex(completed, idx);
      assert forall x :: x in w <==> x in multiset(w);
      assert forall x :: x in completed + [idx] <==> x in multiset(completed + [idx]);
    }
  }

  /** A sorted duplicate-free index list stays so and gains exactly `idx`. */
  lemma WithIndexSpec(completed: seq<int>, idx: int)
    requires StrictlyIncreasing(completed)
    ensures StrictlyIncreasing(WithIndex(completed, idx))
    ensures forall x :: x in WithIndex(completed, idx) <==> x in completed || x == idx
  {
    WithIndexMembers(completed, idx);
    if idx !in completed {
      AppendSortIsInsert(completed, idx, Identity);
      InsertStrict(completed, idx);
    }
  }

  // ---------------------------------------------------------------------------------------
  // State transitions on the record
  // ---------------------------------------------------------------------------------------

  /** The record after `add_completed_chunk(result)` at time `now`. */
  function Completing(rec: StateRecord, result: ProcessedChunk, now: string): StateRecord {
    rec.(completedChunks := WithIndex(rec.completedChunks, result.chunkIndex),
         actualCost := rec.actualCost + result.cost,
         totalInputTokens := rec.totalInputTokens + result.inputTokens,
         totalOutputTokens := rec.totalOutputTokens + result.outputTokens,
         processedResults := Upsert(rec.processedResults, result),
         lastUpdated := now)
  }

  /** The record after `add_failed_chunk(idx, msg)` at time `now`. */
  function Failing(rec: StateRecord, idx: int, msg: string, now: string): StateRecord {
    rec.(failedChunks := rec.failedChunks[idx := msg], lastUpdated := now)
  }

  /** The record's bookkeeping: completed indices ascending without repeats, one cache entry per index. */
  ghost predicate WellKept(rec: StateRecord) {
    StrictlyIncreasing(rec.completedChunks) && UniqueIndices(rec.processedResults)
  }

  /**
   * Completing a chunk keeps the bookkeeping, marks its index done, caches the result as the only
   * entry for its index, and adds its cost and tokens to the totals.
   */
  lemma CompletingSpec(rec: StateRecord, result: ProcessedChunk, now: string)
    requires WellKept(rec)
    ensures var next := Completing(rec, result, now);
      && WellKept(next)
      && (forall x :: x in next.completedChunks <==> x in rec.completedChunks || x == result.chunkIndex)
      && result in next.processedResults
      && (forall x :: x in next.processedResults && x.chunkIndex == result.chunkIndex ==> x == result)
      && next.actualCost == rec.actualCost + result.cost
      && next.totalInputTokens == rec.totalInputTokens + result.inputTokens
      && next.totalOutputTokens == rec.totalOutputTokens + result.outputTokens
      && next.failedChunks == rec.failedChunks
  {
    WithIndexSpec(rec.completedChunks, result.chunkIndex);
    UpsertSpec(rec.processedResults, result);
    var next := Completing(rec, result, now);
    forall x | x in next.processedResults && x.chunkIndex == result.chunkIndex
      ensures x == result
    {
      var a :| 0 <= a < |next.processedResults| && next.processedResults[a] == x;
      var b :| 0 <= b < |next.processedResults| && next.processedResults[b] == result;
      assert a == b;
    }
  }

  /** The cost total equals the cached costs' sum as long as each index is completed once. */
  lemma CompletingNewIndexKeepsCostSum(rec: StateRecord, result: ProcessedChunk, now: string)
    requires rec.actualCost == SumCost(rec.processedResults)
    requires forall j :: 0 <= j < |rec.processedResults| ==> rec.processedResults[j].chunkIndex != result.chunkIndex
    ensures Completing(rec, result, now).actualCost == SumCost(Completing(rec, result, now).processedResults)
  {
    UpsertSpec(rec.processedResults, result);
    SumsAppend(rec.processedResults, [result]);
  }

  /** Completing the same index twice counts its cost twice but caches it once. */
  lemma CompletingTwiceDoubleCounts(rec: StateRecord, result: ProcessedChunk, now: string)
    requires rec.actualCost == SumCost(rec.processedResults)
    requires forall j :: 0 <= j < |rec.processedResults| ==> rec.processedResults[j].chunkIndex != result.chunkIndex
    requires result.cost > 0.0
    ensures var twice := Completing(Completing(rec, result, now), result, now);
      twice.actualCost == SumCost(twice.processedResults) + result.cost
  {
    var rs := rec.processedResults;
    UpsertSpec(rs, result);
    var once := Completing(rec, result, now);
    assert once.processedResults == rs + [result];
    FirstWithIndexSpec(rs + [result], result.chunkIndex, 0);
    var k := FirstWithIndex(rs + [result], result.chunkIndex, 0);
    assert k == Some(|rs|);
    assert (rs + [result])[|rs| := result] == rs + [result];
    SumsAppend(rs, [result]);
  }

  // ---------------------------------------------------------------------------------------
  // The store: primary and backup slots
  // ---------------------------------------------------------------------------------------

  /** A state file: missing, present but undecodable, or holding a record. */
  datatype Slot = Absent | Corrupt | Stored(record: StateRecord)

  datatype Store = Store(primary: Slot, backup: Slot) {
    /** `read_state`: no primary means no state; an undecodable primary falls back to the backup. */
    function Read(): Option<StateRecord> {
      match primary
      case Absent => None
      case Stored(r) => Some(r)
      case Corrupt => if backup.Stored? then Some(backup.record) else None
    }

    /** `write_state`: an existing primary (even an undecodable one) becomes the backup, then the record is installed. */
    function Write(rec: StateRecord): (s: Store)
      ensures s.primary == Stored(rec)
    {
      Store(Stored(rec), if primary.Absent? then backup else primary)
    }
  }

  /** What `clear_state` leaves: both files deleted. */
  const Cleared: Store := Store(Absent, Absent)

  /** A read right after a write returns what was written; a second write moves the first into the backup. */
  lemma WriteThenRead(st: Store, first: StateRecord, second: StateRecord)
    ensures st.Write(first).Read() == Some(first)
    ensures st.Write(first).Write(second) == Store(Stored(second), Stored(first))
  {
  }

  /** If the newest state file is damaged, a read recovers the state written before it. */
  lemma DamagedPrimaryRecoversPrevious(st: Store, first: StateRecord, second: StateRecord)
    ensures Store(Corrupt, st.Write(first).Write(second).backup).Read() == Some(first)
  {
  }

  /** Without a primary there is no state, whatever the backup holds. */
  lemma AbsentPrimaryReadsNothing(st: Store)
    requires st.primary.Absent?
    ensures st.Read().None?
  {
  }

  /** After a clear, the first write leaves the backup empty: the cleared job cannot come back. */
  lemma WriteAfterClear(rec: StateRecord)
    ensures Cleared.Write(rec) == Store(Stored(rec), Absent)
  {
  }

  /** The record `create_new_state` builds. */
  function NewRecord(fileId: string, fileName: string, videoTitle: string, totalChunks: int,
                     config: JobConfig, estimatedCost: real, now: string): StateRecord {
    StateRecord(StateVersion, fileId, fileName, videoTitle, Idle, now, now, config, totalChunks,
                [], map[], [], estimatedCost, 0.0, 0, 0)
  }

  /**
   * A new job is idle and so not resumable, has every index in `[0, total)` remaining, keeps its
   * bookkeeping, and its cost total matches its (empty) cache.
   */
  lemma NewRecordSpec(fileId: string, fileName: string, videoTitle: string, totalChunks: int,
                      config: JobConfig, estimatedCost: real, now: string)
    ensures var r := NewRecord(fileId, fileName, videoTitle, totalChunks, config, estimatedCost, now);
      && !Resumable(r)
      && WellKept(r)
      && r.actualCost == SumCost(r.processedResults)
      && forall x :: x in RemainingChunks(r) <==> 0 <= x < totalChunks
  {
    RemainingChunksSpec(NewRecord(fileId, fileName, videoTitle, totalChunks, config, estimatedCost, now));
  }

  // ---------------------------------------------------------------------------------------
  // The mutable objects
  // ---------------------------------------------------------------------------------------

  class ProcessingState {
    var version: string
    var fileId: string
    var fileName: string
    var videoTitle: string
    var status: Status
    var startedAt: string
    var lastUpdated: string
    var config: JobConfig
    var totalChunks: int
    var completedChunks: seq<int>
    var failedChunks: map<int, string>
    var processedResults: seq<ProcessedChunk>
    var estimatedCost: real
    var actualCost: real
    var totalInputTokens: int
    var totalOutputTokens: int

    /** `to_dict`. */
    function Snapshot(): StateRecord
      reads this
    {
      StateRecord(version, fileId, fileName, videoTitle, status, startedAt, lastUpdated, config, totalChunks,
                  completedChunks, failedChunks, processedResults, estimatedCost, actualCost,
                  totalInputTokens, totalOutputTokens)
    }

    /** `from_dict`. */
    constructor FromRecord(r: StateRecord)
      ensures Snapshot() == r
    {
      version, fileId, fileName, videoTitle := r.version, r.fileId, r.fileName, r.videoTitle;
      status, startedAt, lastUpdated, config := r.status, r.startedAt, r.lastUpdated, r.config;
      totalChunks, completedChunks, failedChunks := r.totalChunks, r.completedChunks, r.failedChunks;
      processedResults, estimatedCost, actualCost := r.processedResults, r.estimatedCost, r.actualCost;
      totalInputTokens, totalOutputTokens := r.totalInputTokens, r.totalOutputTokens;
    }

    predicate IsResumable()
      reads this
    {
      Resumable(Snapshot())
    }

    function GetRemainingChunks(): seq<int>
      reads this
    {
      RemainingChunks(Snapshot())
    }

    method UpdateTimestamp(now: string)
      modifies this
      ensures Snapshot() == old(Snapshot()).(lastUpdated := now)
    {
      lastUpdated := now;
    }

    /** Mark the index done, add the totals, upsert the cached result, stamp the time. */
    method AddCompletedChunk(result: ProcessedChunk, now: string)
      modifies this
      ensures Snapshot() == Completing(old(Snapshot()), result, now)
    {
      MarkCompleted(result.chunkIndex);
      AddTotals(result);
      CacheResult(result);
      UpdateTimestamp(now);
    }

    /** Append a new index to `completed_chunks` and re-sort; a known index changes nothing. */
    method MarkCompleted(idx: int)
      modifies this
      ensures Snapshot() == old(Snapshot()).(completedChunks := WithIndex(old(completedChunks), idx))
    {
      if idx !in completedChunks {
        completedChunks := SortBy(completedChunks + [idx], Identity);
      }
    }

    /** Add the result's cost and tokens to the running totals. */
    method AddTotals(result: ProcessedChunk)
      modifies this
      ensures Snapshot() == old(Snapshot()).(actualCost := old(actualCost) + result.cost,
                                             totalInputTokens := old(totalInputTokens) + result.inputTokens,
                                             totalOutputTokens := old(totalOutputTokens) + result.outputTokens)
    {
      actualCost, totalInputTokens, totalOutputTokens :=
        actualCost + result.cost, totalInputTokens + result.inputTokens, totalOutputTokens + result.outputTokens;
    }

    /** Replace the first cached entry with the result's index, else append the result. */
    method CacheResult(result: ProcessedChunk)
      modifies this
      ensures Snapshot() == old(Snapshot()).(processedResults := Upsert(old(processedResults), result))
    {
      var existing: Option<nat> := None;
      var i := 0;
      while i < |processedResults|
        invariant 0 <= i <= |processedResults|
        invariant FirstWithIndex(processedResults, result.chunkIndex, i) == FirstWithIndex(processedResults, result.chunkIndex, 0)
      {
        if processedResults[i].chunkIndex == result.chunkIndex {
          existing := Some(i);
          break;
        }
        i := i + 1;
      }
      if existing.Some? {
        processedResults := processedResults[existing.value := result];
      } else {
        processedResults := processedResults + [result];
      }
    }

    /** Record (or overwrite) the failure message of an index and stamp the time. */
    method AddFailedChunk(chunkIndex: int, errorMsg: string, now: string)
      modifies this
      ensures Snapshot() == Failing(old(Snapshot()), chunkIndex, errorMsg, now)
    {
      failedChunks := failedChunks[chunkIndex := errorMsg];
      UpdateTimestamp(now);
    }
  }

  class StateManager {
    /** The primary and backup state files. */
    var store: Store

    /** A manager over whatever the state directory already holds. */
    constructor(initial: Store)
      ensures store == initial
    {
      store := initial;
    }

    method ReadState() returns (state: ProcessingState?)
      ensures state == null <==> store.Read().None?
      ensures state != null ==> fresh(state) && state.Snapshot() == store.Read().value
    {
      var found := store.Read();
      if found.None? {
        return null;
      }
      state := new ProcessingState.FromRecord(found.value);
    }

    /** Stamps the state, then moves the primary into the backup and installs the state. */
    method WriteState(state: ProcessingState, now: string)
      modifies this, state
      ensures state.Snapshot() == old(state.Snapshot()).(lastUpdated := now)
      ensures store == old(store).Write(state.Snapshot())
    {
      state.UpdateTimestamp(now);
      if !store.primary.Absent? {
        store := store.(backup := store.primary, primary := Absent);
      }
      store := store.(primary := Stored(state.Snapshot()));
    }

    /** `create_new_state`; the file id (an md5 digest) and the clock are parameters. */
    method CreateNewState(fileName: string, videoTitle: string, totalChunks: int, config: JobConfig,
                          estimatedCost: real, fileId: string, now: string) returns (state: ProcessingState)
      ensures fresh(state)
      ensures state.Snapshot() == NewRecord(fileId, fileName, videoTitle, totalChunks, config, estimatedCost, now)
    {
      state := new ProcessingState.FromRecord(
        NewRecord(fileId, fileName, videoTitle, totalChunks, config, estimatedCost, now));
    }

    method ClearState()
      modifies this
      ensures store == Cleared
    {
      store := store.(primary := Absent);
      store := store.(backup := Absent);
    }

    method HasResumableState() returns (b: bool)
      ensures b <==> store.Read().Some? && Resumable(store.Read().value)
    {
      var state := ReadState();
      b := state != null && state.IsResumable();
    }
  }
}
