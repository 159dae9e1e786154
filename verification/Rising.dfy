/** The pure decisions of the rising coordinator: adopting a page, accepting an inventory, committing. */
module Rising {
  import opened Wrappers
  import opened Cursors
  import opened Identity
  import opened Source
  import opened Spool
  import opened C = Checkpoint
  import opened DurableState

  const INITIAL_CONFIGURATION_GENERATION: U64 := 1
  const INITIAL_CHECKPOINT_GENERATION: U64 := 0

  datatype RisingError =
    | StoreFailure
    | SpoolFailure
    | DeliveryFailure
    | CheckpointInvariant
    | MissingState
    | IdentityMigration
    | ConfigurationActivation
    | InventoryConflict
    | PageContextStale
    | CursorRequestInvalid
    | EmptyCompletionInvalid
    | AttemptIdentity

  /** One prepared rising input: what the daemon is configured to run now. */
  datatype Prepared = Prepared(identity: SourceIdentity, revision: Revision)

  function SpecOf(identity: SourceIdentity, revision: Revision): CursorSpec {
    CursorSpec(identity.cursor.timestampField, identity.cursor.idField, revision.overlap)
  }

  datatype PageContext = PageContext(
    configurationGeneration: U64,
    checkpointGeneration: U64,
    attemptId: AttemptId,
    page: U64,
    request: CursorRequest,
    inputId: Bytes,
    revision: Revision)

  function InitialState(prepared: Prepared): InputState {
    InputState(
      DURABLE_STATE_FORMAT_VERSION,
      prepared.identity,
      prepared.revision,
      INITIAL_CONFIGURATION_GENERATION,
      NewSnapshot(
        ConfigurationFence(prepared.revision, INITIAL_CONFIGURATION_GENERATION),
        INITIAL_CHECKPOINT_GENERATION,
        None),
      None)
  }

  /** The store's activation of another revision for an idle input. */
  function Activated(state: InputState, revision: Revision): InputState
    requires state.configurationGeneration < MAX_U64
  {
    state.(
      revision := revision,
      configurationGeneration := state.configurationGeneration + 1,
      coordinator := NewSnapshot(
        ConfigurationFence(revision, state.configurationGeneration + 1),
        state.coordinator.generation,
        state.coordinator.committed))
  }

  function FreshScan(attemptId: AttemptId, s: Snapshot): ActiveScan {
    ActiveScan(attemptId, s.committed, None, None, 0, 0, 1, false, [], 0)
  }

  function StartFence(state: InputState, attemptId: AttemptId): AttemptFence {
    AttemptFence(attemptId, state.coordinator.configurationId, state.coordinator.generation)
  }

  /** The next state of the transition that opens an attempt. */
  function WithAttempt(state: InputState, attemptId: AttemptId): InputState {
    var next := StartAttempt(state.coordinator, StartFence(state, attemptId)).next;
    state.(coordinator := next, scan := Some(FreshScan(attemptId, next)))
  }

  function RequestOf(state: InputState, scan: ActiveScan): CursorRequest {
    CursorRequest(SpecOf(state.identity, state.revision), state.coordinator.committed, scan.resumeAfter)
  }

  function FingerprintOf(request: CursorRequest): RequestFingerprint {
    RequestFingerprint(
      CursorIdentity(request.spec.timestampField, request.spec.idField), request.committed, request.resumeAfter)
  }

  function ContextOf(state: InputState, scan: ActiveScan): PageContext {
    PageContext(
      state.configurationGeneration, state.coordinator.generation, scan.attemptId, scan.nextPage,
      RequestOf(state, scan), state.identity.inputId, state.revision)
  }

  // ---- sealing --------------------------------------------------------------------------------

  function MetadataFor(context: PageContext, page: Page): RecoveryMetadata
    requires |page.rows| <= MAX_U64
  {
    RecoveryMetadata(|page.rows|, page.truncated, FingerprintOf(context.request), page.candidate, page.resume)
  }

  /** The segment a worker seals for one non-empty page. */
  function Sealed(id: SegmentId, context: PageContext, page: Page): Segment
    requires |page.rows| <= MAX_U64
  {
    Segment(
      id,
      SegmentHeader(
        context.inputId, context.revision, context.configurationGeneration,
        context.attemptId, context.checkpointGeneration, context.page),
      MetadataFor(context, page),
      page.rows)
  }

  // ---- inventory ------------------------------------------------------------------------------

  /** The checks every retained segment must pass, whatever its role. */
  predicate InFence(state: InputState, segment: Segment) {
    && state.coordinator.active.Some?
    && segment.header.inputId == state.identity.inputId
    && segment.header.revision == state.revision
    && segment.header.configurationGeneration == state.configurationGeneration
    && segment.header.batchId == state.coordinator.active.value.fence.attemptId
    && segment.header.batchSequence == state.coordinator.generation
    && segment.header.segmentSequence != 0
    && segment.metadata.rows == |segment.events|
    && segment.metadata.rows != 0
  }

  predicate MatchesReference(scan: ActiveScan, reference: SegmentRef, segment: Segment) {
    && reference.sequence == reference.page
    && segment.header.segmentSequence == reference.page
    && segment.id == reference.segmentId
    && |segment.events| == reference.rows
    && segment == reference.digest
    && (reference.sequence < SegmentCount(scan) || !scan.complete ==> segment.metadata.truncated)
  }

  predicate Referenced(scan: ActiveScan, id: SegmentId) {
    exists i :: 0 <= i < |scan.segments| && scan.segments[i].segmentId == id
  }

  predicate Receipted(scan: ActiveScan, i: int)
    requires 0 <= i < |scan.segments|
  {
    scan.segments[i].sequence <= scan.deliveredThrough
  }

  /** A receipted reference may keep only its delivered copy; any other needs a matching copy. */
  predicate AcceptsReference(scan: ActiveScan, spool: Store, i: int)
    requires 0 <= i < |scan.segments|
  {
    var reference := scan.segments[i];
    if Receipted(scan, i) then
      reference.segmentId in spool ==>
        spool[reference.segmentId].Delivered? && MatchesReference(scan, reference, spool[reference.segmentId].segment)
    else
      reference.segmentId in spool && MatchesReference(scan, reference, spool[reference.segmentId].segment)
  }

  predicate AdoptableRole(scan: ActiveScan, located: Located) {
    && located.Ready?
    && !scan.complete
    && located.segment.header.segmentSequence == scan.nextPage
    && |located.segment.events| > 0
  }

  /** What the coordinator demands of the retained segments before it touches anything. */
  ghost predicate AcceptsInventory(state: InputState, spool: Store) {
    && (forall id :: id in spool ==> spool[id].segment.id == id && InFence(state, spool[id].segment))
    && (match state.scan
        case None => spool == map[]
        case Some(scan) =>
          && (forall i :: 0 <= i < |scan.segments| ==> AcceptsReference(scan, spool, i))
          && (forall id :: id in spool && !Referenced(scan, id) ==> AdoptableRole(scan, spool[id]))
          && (forall a, b :: a in spool && b in spool && !Referenced(scan, a) && !Referenced(scan, b) ==> a == b))
  }

  // ---- adopting a sealed page -----------------------------------------------------------------

  function AdoptedScan(scan: ActiveScan, orphan: Segment): ActiveScan
    requires SegmentCount(scan) < MAX_U64 && scan.nextPage < MAX_U64
  {
    scan.(
      segments := scan.segments
        + [SegmentRef(orphan.id, SegmentCount(scan) + 1, scan.nextPage, orphan.metadata.rows, orphan)],
      resumeAfter := orphan.metadata.resume,
      maximumCandidate := orphan.metadata.candidate,
      nextPage := scan.nextPage + 1,
      complete := !orphan.metadata.truncated)
  }

  function AdoptOrphan(state: InputState, orphan: Segment): Result<InputState, RisingError> {
    if !InFence(state, orphan) then Err(InventoryConflict)
    else if state.scan.None? then Err(CheckpointInvariant)
    else
      var scan := state.scan.value;
      if orphan.metadata.request != FingerprintOf(RequestOf(state, scan)) then Err(InventoryConflict)
      else if scan.complete || orphan.header.segmentSequence != scan.nextPage then Err(InventoryConflict)
      else if SegmentCount(scan) >= MAX_U64 then Err(CheckpointInvariant)
      else if SegmentCount(scan) + 1 != scan.nextPage || |scan.segments| >= MAX_SEGMENTS_PER_SCAN then Err(InventoryConflict)
      else if scan.nextPage >= MAX_U64 then Err(CheckpointInvariant)
      else
        var adopted := AdoptedScan(scan, orphan);
        var rows := SealedRows(adopted);
        if rows > MAX_U64 then Err(CheckpointInvariant)
        else if !adopted.complete then Ok(state.(scan := Some(adopted)))
        else
          var step := RecordCompleted(
            state.coordinator, state.coordinator.active.value.fence, rows, adopted.maximumCandidate);
          if step.result.Err? then Err(CheckpointInvariant)
          else Ok(state.(coordinator := step.next, scan := Some(adopted)))
  }

  // ---- completing, receipting, pruning, committing --------------------------------------------

  function CompletedEmpty(state: InputState): Result<InputState, RisingError> {
    if state.scan.None? || state.coordinator.active.None? then Err(CheckpointInvariant)
    else
      var scan := state.scan.value.(complete := true);
      var rows := SealedRows(scan);
      if rows > MAX_U64 then Err(CheckpointInvariant)
      else
        var step := RecordCompleted(
          state.coordinator, state.coordinator.active.value.fence, rows, scan.maximumCandidate);
        if step.result.Err? then Err(CheckpointInvariant)
        else Ok(state.(coordinator := step.next, scan := Some(scan)))
  }

  function WithReceipt(state: InputState): InputState
    requires state.scan.Some? && state.scan.value.deliveredThrough < MAX_U64
  {
    var scan := state.scan.value;
    state.(scan := Some(scan.(deliveredThrough := scan.deliveredThrough + 1)))
  }

  /** How many leading references carry a receipt. */
  function Removable(segments: seq<SegmentRef>, deliveredThrough: U64): (n: nat)
    ensures n <= |segments|
  {
    if segments == [] || segments[0].sequence > deliveredThrough then 0
    else 1 + Removable(segments[1..], deliveredThrough)
  }

  function PrunedScan(scan: ActiveScan): Result<ActiveScan, RisingError> {
    var removable := Removable(scan.segments, scan.deliveredThrough);
    if removable == 0 then Ok(scan)
    else
      var rows := scan.compactedRows + SumRows(scan.segments[..removable]);
      if rows > MAX_U64 then Err(CheckpointInvariant)
      else Ok(scan.(
        compactedThrough := scan.segments[removable - 1].sequence,
        compactedRows := rows,
        segments := scan.segments[removable..]))
  }

  function WithConfirmation(state: InputState): Result<InputState, RisingError> {
    if state.scan.None? || state.coordinator.active.None? then Err(CheckpointInvariant)
    else
      var rows := SealedRows(state.scan.value);
      if rows > MAX_U64 then Err(CheckpointInvariant)
      else
        var step := RecordConfirmed(state.coordinator, state.coordinator.active.value.fence, rows);
        if step.result.Err? then Err(CheckpointInvariant)
        else Ok(state.(coordinator := step.next))
  }

  function CommittedState(state: InputState): Result<InputState, RisingError> {
    if state.coordinator.active.None? then Err(CheckpointInvariant)
    else
      var step := Commit(state.coordinator, state.coordinator.active.value.fence);
      if step.result.Err? then Err(CheckpointInvariant)
      else Ok(state.(coordinator := step.next, scan := None))
  }
}
