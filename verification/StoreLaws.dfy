/**
 What the store's check of a write guarantees by itself, whoever writes: no accepted write, and so no
 sequence of them, loses a cursor, skips a receipt or mixes attempts.
 */
module StoreLaws {
  import opened Wrappers
  import opened Cursors
  import opened Identity
  import opened C = Checkpoint
  import opened DurableState
  import opened CheckpointRuns
  import opened CheckpointLaws

  /** The fence of a state stays. */
  predicate SameFence(current: InputState, next: InputState) {
    && next.identity == current.identity && next.revision == current.revision
    && next.configurationGeneration == current.configurationGeneration
  }

  /** A new attempt over nothing read. */
  predicate Opens(current: InputState, next: InputState) {
    && current.scan.None? && next.scan.Some?
    && next.scan.value.segments == [] && next.scan.value.nextPage == 1 && !next.scan.value.complete
    && next.scan.value.resumeAfter.None? && next.scan.value.maximumCandidate.None?
    && next.scan.value.compactedThrough == next.scan.value.compactedRows == next.scan.value.deliveredThrough == 0
    && next.scan.value.baseCommitted == current.coordinator.committed
    && next.coordinator.committed == current.coordinator.committed
    && next.coordinator.generation == current.coordinator.generation
  }

  /** Every page was delivered, the same rows are recorded on both sides, and the cursor goes to the candidate. */
  predicate Closes(current: InputState, next: InputState) {
    && current.scan.Some? && next.scan.None?
    && current.scan.value.complete && current.scan.value.deliveredThrough == SegmentCount(current.scan.value)
    && current.coordinator.active.Some? && IsReady(current.coordinator.active.value)
    && current.coordinator.active.value.delivery.rows == SealedRows(current.scan.value)
    && next.coordinator.generation == current.coordinator.generation + 1
    && next.coordinator.committed ==
         (if current.scan.value.maximumCandidate.Some? then current.scan.value.maximumCandidate
          else current.coordinator.committed)
  }

  /** The same attempt goes on: pages are added one at a time, receipts and pruning follow them. */
  predicate GoesOn(current: InputState, next: InputState) {
    && current.scan.Some? && next.scan.Some?
    && var a, b := current.scan.value, next.scan.value;
    && b.attemptId == a.attemptId && b.baseCommitted == a.baseCommitted
    && next.coordinator.committed == current.coordinator.committed
    && next.coordinator.generation == current.coordinator.generation
    && SealedRows(a) <= SealedRows(b)
    && SegmentCount(a) <= SegmentCount(b) <= SegmentCount(a) + 1
    && a.deliveredThrough <= b.deliveredThrough <= a.deliveredThrough + 1
    && a.compactedThrough <= b.compactedThrough <= b.deliveredThrough
    && (a.complete ==> b.complete && SealedRows(b) == SealedRows(a))
    && (a.resumeAfter.Some? ==> b.resumeAfter.Some? && AtMost(a.resumeAfter.value, b.resumeAfter.value))
    && (a.maximumCandidate.Some? ==> b.maximumCandidate.Some? && AtMost(a.maximumCandidate.value, b.maximumCandidate.value))
  }

  lemma CompactionKeepsRows(a: ActiveScan, b: ActiveScan)
    requires ScanCompacts(a, b)
    ensures SealedRows(b) == SealedRows(a) && SegmentCount(b) == SegmentCount(a)
  {
    SumRowsSplit(a.segments, b.compactedThrough - a.compactedThrough);
  }

  lemma AppendAddsRows(a: ActiveScan, b: ActiveScan, completes: bool)
    requires ScanAppends(a, b, completes)
    ensures SealedRows(a) <= SealedRows(b) && SegmentCount(a) <= SegmentCount(b) <= SegmentCount(a) + 1
  {
    SumRowsSplit(b.segments, |a.segments|);
    assert b.segments[..|a.segments|] == a.segments;
  }

  lemma ScanKept(current: InputState, next: InputState)
    requires ValidState(current) && ValidState(next) && ValidTransition(current, next)
    requires current.coordinator == next.coordinator
    ensures GoesOn(current, next)
  {
    var a, b := current.scan.value, next.scan.value;
    if a.deliveredThrough == b.deliveredThrough {
      if a.compactedThrough != b.compactedThrough || a.compactedRows != b.compactedRows {
        CompactionKeepsRows(a, b);
      } else {
        AppendAddsRows(a, b, false);
      }
    }
  }

  lemma ScanStarts(current: InputState, next: InputState)
    requires ValidState(current) && ValidState(next) && current.scan.None? && next.scan.Some? && InitialScan(next.scan.value)
    requires next.coordinator.active.Some?
    requires Produces(StartAttempt(current.coordinator, next.coordinator.active.value.fence), next.coordinator)
    ensures Opens(current, next)
  {
  }

  lemma ScanCompletes(current: InputState, next: InputState)
    requires ValidState(current) && ValidState(next) && current.scan.Some? && next.scan.Some?
    requires next.coordinator.active.Some? && next.coordinator.active.value.collection.Completed?
    requires
      var active := next.coordinator.active.value;
      Produces(RecordCompleted(current.coordinator, active.fence, active.collection.rows, active.collection.candidate), next.coordinator)
    requires ScanAppends(current.scan.value, next.scan.value, true)
    ensures GoesOn(current, next)
  {
    AppendAddsRows(current.scan.value, next.scan.value, true);
  }

  lemma ScanStays(current: InputState, next: InputState)
    requires ValidState(current) && ValidState(next) && current.scan.Some? && current.scan == next.scan
    requires next.coordinator.committed == current.coordinator.committed
    requires next.coordinator.generation == current.coordinator.generation
    ensures GoesOn(current, next)
  {
  }

  lemma ScanCloses(current: InputState, next: InputState)
    requires ValidState(current) && ValidState(next) && current.coordinator.active.Some?
    requires Produces(Commit(current.coordinator, current.coordinator.active.value.fence), next.coordinator)
    requires current.coordinator != next.coordinator
    requires current.scan.Some? && next.scan.None? && HasFullReceipt(current.scan.value)
    ensures Closes(current, next)
  {
    CommitsExactlyWhen(current.coordinator, current.coordinator.active.value.fence);
  }

  /** Every accepted write opens an attempt, goes on with it or closes it, under one fence. */
  lemma AcceptedWrite(current: InputState, next: InputState)
    requires ValidState(current) && StoreAccepts(current, next)
    ensures ValidState(next) && SameFence(current, next)
    ensures Opens(current, next) || GoesOn(current, next) || Closes(current, next)
  {
    match Classify(current.coordinator, next.coordinator).value {
      case Kept => ScanKept(current, next);
      case StartedAttempt => ScanStarts(current, next);
      case CompletedCollection => ScanCompletes(current, next);
      case FailedCollection => ScanStays(current, next);
      case ChangedDelivery => ScanStays(current, next);
      case CommittedAttempt => ScanCloses(current, next);
    }
  }

  /** Only a close moves the cursor, and never back. */
  lemma AcceptedWriteKeepsCursor(current: InputState, next: InputState)
    requires ValidState(current) && StoreAccepts(current, next)
    ensures NotRegressed(current.coordinator.committed, next.coordinator.committed)
    ensures next.coordinator.generation == current.coordinator.generation + if Closes(current, next) then 1 else 0
    ensures next.coordinator.committed != current.coordinator.committed ==> Closes(current, next)
  {
    AcceptedWrite(current, next);
  }

  // ---- any sequence of accepted writes --------------------------------------------------------

  /** Writes of any origin, each accepted by the store. */
  ghost predicate Accepted(states: seq<InputState>) {
    && states != [] && ValidState(states[0])
    && forall i :: 0 <= i < |states| - 1 ==> StoreAccepts(states[i], states[i + 1])
  }

  function Closings(states: seq<InputState>, n: nat): nat
    requires n < |states|
  {
    if n == 0 then 0 else Closings(states, n - 1) + if Closes(states[n - 1], states[n]) then 1 else 0
  }

  /** Over any accepted writes the cursor never goes back, and the generation counts the closed attempts. */
  lemma {:induction false} AcceptedWritesAreSafe(states: seq<InputState>, n: nat)
    requires Accepted(states) && n < |states|
    ensures ValidState(states[n]) && SameFence(states[0], states[n])
    ensures NotRegressed(states[0].coordinator.committed, states[n].coordinator.committed)
    ensures states[n].coordinator.generation == states[0].coordinator.generation + Closings(states, n)
  {
    if n > 0 {
      AcceptedWritesAreSafe(states, n - 1);
      assert StoreAccepts(states[n - 1], states[n - 1 + 1]);
      AcceptedWrite(states[n - 1], states[n]);
      AcceptedWriteKeepsCursor(states[n - 1], states[n]);
    }
  }

  // ---- what is refused ------------------------------------------------------------------------

  /** A write that repeats the state, or changes its fence, is no transition. */
  lemma NoTransition(current: InputState, next: InputState)
    requires ValidState(current) && (next == current || !SameFence(current, next))
    ensures !StoreAccepts(current, next)
  {
  }

  /**
   A stored state has consecutive pages without gaps, one segment for each, each with rows; receipts lie
   between what is pruned and what is sealed, and an idle state has no attempt.
   */
  lemma StoredStateMeans(state: InputState)
    requires ValidState(state)
    ensures state.formatVersion == 2 && state.configurationGeneration >= 1
    ensures state.coordinator.configurationId == ConfigurationFence(state.revision, state.configurationGeneration)
    ensures state.scan.None? <==> state.coordinator.active.None?
    ensures state.scan.Some? ==>
      var scan := state.scan.value;
      && |scan.segments| <= 4_096
      && (forall i :: 0 <= i < |scan.segments| ==>
            && scan.segments[i].sequence == scan.segments[i].page == scan.compactedThrough + 1 + i
            && scan.segments[i].rows >= 1)
      && (forall i, j :: 0 <= i < j < |scan.segments| ==> scan.segments[i].segmentId != scan.segments[j].segmentId)
      && scan.nextPage == scan.compactedThrough + |scan.segments| + 1
      && scan.compactedThrough <= scan.deliveredThrough < scan.nextPage
      && (scan.complete <==> state.coordinator.active.value.collection.Completed?)
      && scan.attemptId == state.coordinator.active.value.fence.attemptId
      && scan.baseCommitted == state.coordinator.committed
  {
  }

  /**
   The cursors and counts of a stored scan: it resumes somewhere exactly once it has pages; what it would
   commit is neither before the committed cursor nor before where it resumes; and what the attempt records
   as collected or confirmed is what was sealed, confirmed only with every receipt.
   */
  lemma StoredProgressMeans(state: InputState)
    requires ValidState(state) && state.scan.Some?
    ensures
      var scan, active := state.scan.value, state.coordinator.active.value;
      && (scan.resumeAfter.Some? <==> scan.nextPage > 1)
      && (SealedRows(scan) > 0 ==> scan.maximumCandidate.Some?)
      && (scan.maximumCandidate.Some? ==>
            && scan.resumeAfter.Some? && AtMost(scan.resumeAfter.value, scan.maximumCandidate.value)
            && (scan.baseCommitted.Some? ==> AtMost(scan.baseCommitted.value, scan.maximumCandidate.value)))
      && (scan.compactedThrough == 0 <==> scan.compactedRows == 0)
      && SealedRows(scan) <= MAX_U64
      && (active.collection.Completed? ==>
            active.collection.rows == SealedRows(scan) && active.collection.candidate == scan.maximumCandidate)
      && (active.delivery.Confirmed? ==>
            active.delivery.rows == SealedRows(scan) && scan.complete && scan.deliveredThrough == SegmentCount(scan))
  {
  }
}
