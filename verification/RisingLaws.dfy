/** What ties a segment, an attempt and a configuration to one another, in terms of the recorded fields alone. */
module RisingLaws {
  import opened Wrappers
  import opened Cursors
  import opened Identity
  import opened Source
  import opened Spool
  import opened C = Checkpoint
  import opened DurableState
  import opened Rising
  import opened Protocol
  import opened Invariant
  import opened Safety
  import opened Inventory
  import opened Reconcile
  import opened CheckpointRuns
  import opened CheckpointLaws

  // ---- configuration generations --------------------------------------------------------------

  lemma OthersKeepGeneration(w: World, a: Action)
    requires Enabled(w, a) && w.store.Some? && !a.Activate?
    ensures Effect(w, a).store.Some?
    ensures Effect(w, a).store.value.configurationGeneration == w.store.value.configurationGeneration
    ensures Effect(w, a).store.value.revision == w.store.value.revision
  {
  }

  lemma OnlyCreationStores(w: World, a: Action)
    requires Enabled(w, a) && w.store.None? && Effect(w, a).store.Some?
    ensures a == CreateState
  {
  }

  /** A first state holds nothing yet. */
  predicate IsFirst(state: InputState, prepared: Prepared) {
    && state.configurationGeneration == 1 && state.coordinator.generation == 0
    && state.coordinator.committed.None? && state.coordinator.active.None? && state.coordinator.last.None?
    && state.scan.None? && state.identity == prepared.identity && state.revision == prepared.revision
  }

  /** Another revision takes the next generation; it keeps the cursor and remembers no attempt. */
  predicate MovesOn(state: InputState, next: InputState, prepared: Prepared) {
    && state.revision != prepared.revision == next.revision && next.identity == state.identity
    && next.configurationGeneration == state.configurationGeneration + 1
    && next.coordinator.committed == state.coordinator.committed
    && next.coordinator.generation == state.coordinator.generation
    && next.coordinator.active.None? && next.coordinator.last.None?
    && next.scan.None? && state.scan.None?
  }

  /** A state is created at the first generation, and its generation moves only with its revision, by one. */
  lemma StepOnGeneration(w: World, next: World)
    requires StepsTo(w, next) && next.store.Some?
    ensures if w.store.None? then IsFirst(next.store.value, w.prepared)
            else
              || MovesOn(w.store.value, next.store.value, w.prepared)
              || (next.store.value.configurationGeneration == w.store.value.configurationGeneration
                  && next.store.value.revision == w.store.value.revision)
  {
    var a :| Enabled(w, a) && Effect(w, a) == next;
    if w.store.None? {
      OnlyCreationStores(w, a);
    } else if !a.Activate? {
      OthersKeepGeneration(w, a);
    }
  }

  /** Over any run a configuration generation stands for one revision, also for one that comes back. */
  lemma {:induction false} GenerationMeansRevision(worlds: seq<World>, i: nat, j: nat)
    requires Run(worlds) && i <= j < |worlds| && worlds[i].store.Some?
    ensures worlds[j].store.Some?
    ensures
      var first, later := worlds[i].store.value, worlds[j].store.value;
      && first.configurationGeneration <= later.configurationGeneration
      && (first.configurationGeneration == later.configurationGeneration ==> first.revision == later.revision)
    decreases j - i
  {
    if i < j {
      var m := j - 1;
      GenerationMeansRevision(worlds, i, m);
      assert StepsTo(worlds[m], worlds[m + 1]);
      StepKeepsIdentity(worlds[m], worlds[m + 1]);
      StepOnGeneration(worlds[m], worlds[m + 1]);
    }
  }

  // ---- segments -------------------------------------------------------------------------------

  /** The segment belongs to the input, the configuration and the attempt of the state, and is not empty. */
  predicate BelongsTo(state: InputState, segment: Segment) {
    && segment.header.inputId == state.identity.inputId
    && segment.header.revision == state.revision
    && segment.header.configurationGeneration == state.configurationGeneration
    && state.coordinator.active.Some?
    && segment.header.batchId == state.coordinator.active.value.fence.attemptId
    && segment.header.batchSequence == state.coordinator.generation
    && segment.header.segmentSequence >= 1
    && segment.metadata.rows == |segment.events| >= 1
  }

  /** It is the segment that reference `i` was made from: the same content, page and count. */
  predicate IsCopyOf(scan: ActiveScan, i: nat, segment: Segment)
    requires i < |scan.segments|
  {
    && segment == scan.segments[i].digest && segment.id == scan.segments[i].segmentId
    && segment.header.segmentSequence == scan.segments[i].page == scan.segments[i].sequence
    && |segment.events| == scan.segments[i].rows
    && (i + 1 < |scan.segments| || !scan.complete ==> segment.metadata.truncated)
  }

  predicate Names(scan: ActiveScan, id: SegmentId) {
    exists i :: 0 <= i < |scan.segments| && scan.segments[i].segmentId == id
  }

  /** A reference without a receipt has its copy; one with a receipt has at most a delivered copy. */
  predicate HasItsCopy(scan: ActiveScan, spool: Store, i: nat)
    requires i < |scan.segments|
  {
    var id := scan.segments[i].segmentId;
    if scan.segments[i].sequence <= scan.deliveredThrough then
      id in spool ==> spool[id].Delivered? && IsCopyOf(scan, i, spool[id].segment)
    else
      id in spool && IsCopyOf(scan, i, spool[id].segment)
  }

  /** A segment without a reference is the next page, ready and not empty. */
  predicate IsNextPage(scan: ActiveScan, located: Located) {
    && located.Ready? && !scan.complete && |located.segment.events| >= 1
    && located.segment.header.segmentSequence == scan.nextPage
  }

  lemma ReferenceIsAccepted(state: InputState, scan: ActiveScan, spool: Store, i: nat)
    requires ValidState(state) && state.scan == Some(scan) && i < |scan.segments|
    ensures AcceptsReference(scan, spool, i) <==> HasItsCopy(scan, spool, i)
  {
    assert scan.segments[i].sequence == scan.segments[i].page == scan.compactedThrough + 1 + i;
  }

  /**
   An inventory is accepted if and only if every retained segment belongs to the open attempt, each
   reference has its copy, and at most one segment has no reference and is then the next page.
   */
  lemma AcceptedInventory(state: InputState, scan: ActiveScan, spool: Store)
    requires ValidState(state) && state.scan == Some(scan)
    ensures AcceptsInventory(state, spool) <==>
      && (forall id :: id in spool ==> spool[id].segment.id == id && BelongsTo(state, spool[id].segment))
      && (forall i :: 0 <= i < |scan.segments| ==> HasItsCopy(scan, spool, i))
      && (forall id :: id in spool && !Names(scan, id) ==> IsNextPage(scan, spool[id]))
      && (forall a, b :: a in spool && b in spool && !Names(scan, a) && !Names(scan, b) ==> a == b)
  {
    forall i | 0 <= i < |scan.segments|
      ensures AcceptsReference(scan, spool, i) <==> HasItsCopy(scan, spool, i)
    {
      ReferenceIsAccepted(state, scan, spool, i);
    }
    forall id
      ensures Names(scan, id) <==> Referenced(scan, id)
    {
    }
  }

  // ---- adopting a page ------------------------------------------------------------------------

  /** The page answers the request the scan is to make next: after its last row, over its committed cursor. */
  predicate AnswersNextRequest(state: InputState, scan: ActiveScan, orphan: Segment) {
    && orphan.metadata.request.cursor == state.identity.cursor
    && orphan.metadata.request.committed == state.coordinator.committed
    && orphan.metadata.request.resumeAfter == scan.resumeAfter
  }

  /**
   What a segment must be to be adopted: of this attempt, the answer to the next request and the next
   page, within the counters. It becomes the last reference, and the scan goes on behind its last row,
   or is complete if the page was not cut off.
   */
  lemma AdoptedPage(state: InputState, scan: ActiveScan, orphan: Segment)
    requires ValidState(state) && state.scan == Some(scan) && AdoptOrphan(state, orphan).Ok?
    ensures BelongsTo(state, orphan) && AnswersNextRequest(state, scan, orphan)
    ensures !scan.complete && orphan.header.segmentSequence == scan.nextPage && |scan.segments| < 4_096
    ensures
      var next := AdoptOrphan(state, orphan).value;
      && next.scan.Some?
      && next.scan.value.segments == scan.segments + [SegmentRef(orphan.id, scan.nextPage, scan.nextPage, |orphan.events|, orphan)]
      && next.scan.value.resumeAfter == orphan.metadata.resume && next.scan.value.maximumCandidate == orphan.metadata.candidate
      && next.scan.value.nextPage == scan.nextPage + 1 && (next.scan.value.complete <==> !orphan.metadata.truncated)
      && next.scan.value.deliveredThrough == scan.deliveredThrough && next.scan.value.compactedThrough == scan.compactedThrough
      && next.coordinator.committed == state.coordinator.committed
      && next.coordinator.active.Some?
      && (next.scan.value.complete ==>
            next.coordinator.active.value.collection == Completed(SealedRows(next.scan.value), orphan.metadata.candidate))
  {
  }

  /** A page sealed for the context of a state is of its attempt, answers its request and reports the page as collected. */
  lemma SealedPageBelongs(state: InputState, scan: ActiveScan, id: SegmentId, page: Page)
    requires ValidState(state) && state.scan == Some(scan) && 1 <= |page.rows| <= MAX_U64
    ensures
      var segment := Sealed(id, ContextOf(state, scan), page);
      && segment.id == id && segment.events == page.rows
      && BelongsTo(state, segment) && AnswersNextRequest(state, scan, segment)
      && segment.header.segmentSequence == scan.nextPage && (segment.metadata.truncated <==> page.truncated)
      && segment.metadata.candidate == page.candidate && segment.metadata.resume == page.resume
  {
  }

  // ---- attempts -------------------------------------------------------------------------------

  /** A commit remembers the attempt whose scan it closes. */
  lemma CommitRemembersScan(state: InputState)
    requires ValidState(state) && state.scan.Some? && CommittedState(state).Ok?
    ensures
      var next := CommittedState(state).value;
      && next.coordinator.last.Some? && next.coordinator.last.value.fence.attemptId == state.scan.value.attemptId
      && next.coordinator.last.value.resultingGeneration == next.coordinator.generation == state.coordinator.generation + 1
  {
    CommitsExactlyWhen(state.coordinator, state.coordinator.active.value.fence);
  }

  /** So the attempt opened after a commit has another id than the one just committed. */
  lemma NextAttemptIsNew(state: InputState, next: InputState, candidates: seq<AttemptId>)
    requires ValidState(state) && state.scan.Some? && CommittedState(state).Ok?
    requires Begins(CommittedState(state).value, next, candidates)
    ensures next.scan.Some? && next.scan.value.attemptId != state.scan.value.attemptId
  {
    CommitRemembersScan(state);
    var idle := CommittedState(state).value;
    assert idle.scan.None?;
    var i :| 0 <= i < |candidates| && Opened(idle, next, candidates[i]);
  }
}
