/**
 The checkpoint state machine as functions from a snapshot to the next snapshot and the answer.
 An error answer always comes with the unchanged snapshot.
 */
module Checkpoint {
  import opened Wrappers
  import opened Cursors
  import opened Identity

  const SNAPSHOT_FORMAT_VERSION: nat := 1

  datatype AttemptFence = AttemptFence(attemptId: AttemptId, configurationId: ConfigurationId, generation: U64)

  datatype CollectionState =
    | InProgress
    | Completed(rows: U64, candidate: Option<Cursor>)
    | Failed

  datatype DeliveryState =
    | InProgress
    | Confirmed(rows: U64)
    | Failed
    | Uncertain

  datatype ActiveAttempt = ActiveAttempt(fence: AttemptFence, collection: CollectionState, delivery: DeliveryState)

  datatype CommittedAttempt = CommittedAttempt(fence: AttemptFence, resultingGeneration: U64)

  datatype Snapshot = Snapshot(
    formatVersion: nat,
    configurationId: ConfigurationId,
    generation: U64,
    committed: Option<Cursor>,
    active: Option<ActiveAttempt>,
    last: Option<CommittedAttempt>)

  datatype CheckpointError =
    | UnsupportedSnapshotVersion
    | InvalidSnapshot
    | ConfigurationMismatch
    | GenerationMismatch
    | AttemptMismatch
    | ActiveAttemptExists
    | NoActiveAttempt
    | MissingCandidate
    | CandidateForEmptyCollection
    | CandidateRegression
    | ConflictingCollectionState
    | ConflictingDeliveryState
    | CollectionInProgress
    | CollectionFailed
    | DeliveryInProgress
    | DeliveryFailed
    | DeliveryUncertain
    | RowCountMismatch
    | GenerationOverflow

  datatype StartOutcome = Started | AlreadyActive
  datatype RecordOutcome = Recorded | Unchanged
  datatype CommitOutcome =
    | Committed(generation: U64, cursorAdvanced: bool)
    | AlreadyCommitted(generation: U64)

  datatype ReplayReason =
    | CollectionInProgress
    | DeliveryInProgress
    | CollectionFailed
    | DeliveryFailed
    | DeliveryUncertain
    | RowCountMismatch

  datatype RecoveryDisposition = DoCommit | Replay(reason: ReplayReason)

  datatype RecoveryAction =
    | StartNewAttempt
    | ReplayFromCommitted(attemptId: AttemptId, reason: ReplayReason)
    | RecoveredCommit(attemptId: AttemptId, generation: U64, cursorAdvanced: bool)

  /** A snapshot after one call, with what the call returned. */
  datatype Step<+T> = Step(next: Snapshot, result: Result<T, CheckpointError>)

  function NewSnapshot(configurationId: ConfigurationId, generation: U64, committed: Option<Cursor>): Snapshot {
    Snapshot(SNAPSHOT_FORMAT_VERSION, configurationId, generation, committed, None, None)
  }

  function ValidateCandidate(committed: Option<Cursor>, rows: U64, candidate: Option<Cursor>): Outcome<CheckpointError> {
    if rows == 0 then
      if candidate.None? then Pass else Fail(CandidateForEmptyCollection)
    else if candidate.None? then Fail(MissingCandidate)
    else if committed.Some? && PositionCmp(candidate.value, committed.value) == Less then Fail(CandidateRegression)
    else Pass
  }

  function ValidateActive(s: Snapshot): Outcome<CheckpointError> {
    if s.active.None? then Pass
    else
      var active := s.active.value;
      if active.fence.configurationId != s.configurationId || active.fence.generation != s.generation then
        Fail(InvalidSnapshot)
      else if active.collection.Completed? then
        ValidateCandidate(s.committed, active.collection.rows, active.collection.candidate)
      else Pass
  }

  function ValidateLast(s: Snapshot): Outcome<CheckpointError> {
    if s.last.None? then Pass
    else
      var last := s.last.value;
      if last.fence.generation == MAX_U64 then Fail(InvalidSnapshot)
      else if || last.fence.configurationId != s.configurationId
              || last.fence.generation + 1 != last.resultingGeneration
              || last.resultingGeneration != s.generation
      then Fail(InvalidSnapshot)
      else Pass
  }

  function Validate(s: Snapshot): Outcome<CheckpointError> {
    if s.formatVersion != SNAPSHOT_FORMAT_VERSION then Fail(UnsupportedSnapshotVersion)
    else
      var active := ValidateActive(s);
      if active.Fail? then active else ValidateLast(s)
  }

  predicate Valid(s: Snapshot) {
    Validate(s).Pass?
  }

  function RequireSnapshotContext(s: Snapshot, configurationId: ConfigurationId, generation: U64): Outcome<CheckpointError> {
    if configurationId != s.configurationId then Fail(ConfigurationMismatch)
    else if generation != s.generation then Fail(GenerationMismatch)
    else Pass
  }

  function RequireCurrentContext(s: Snapshot, fence: AttemptFence): Outcome<CheckpointError> {
    RequireSnapshotContext(s, fence.configurationId, fence.generation)
  }

  function RequireActiveFence(s: Snapshot, fence: AttemptFence): Outcome<CheckpointError> {
    var context := RequireCurrentContext(s, fence);
    if context.Fail? then context
    else if s.active.None? then Fail(NoActiveAttempt)
    else if s.active.value.fence.attemptId != fence.attemptId then Fail(AttemptMismatch)
    else Pass
  }

  /** The two checks that open every call recording progress of an attempt. */
  function RequireValidActive(s: Snapshot, fence: AttemptFence): (r: Outcome<CheckpointError>)
    ensures r.Pass? ==> Valid(s) && s.active.Some? && s.active.value.fence == fence
  {
    var valid := Validate(s);
    if valid.Fail? then valid else RequireActiveFence(s, fence)
  }

  function StartAttempt(s: Snapshot, fence: AttemptFence): Step<StartOutcome> {
    var valid := Validate(s);
    if valid.Fail? then Step(s, Err(valid.error))
    else
      var context := RequireCurrentContext(s, fence);
      if context.Fail? then Step(s, Err(context.error))
      else match s.active
        case Some(active) =>
          if active.fence.attemptId == fence.attemptId then Step(s, Ok(AlreadyActive))
          else Step(s, Err(ActiveAttemptExists))
        case None =>
          var started := ActiveAttempt(fence, CollectionState.InProgress, DeliveryState.InProgress);
          Step(s.(active := Some(started)), Ok(Started))
  }

  function WithCollection(s: Snapshot, collection: CollectionState): Snapshot
    requires s.active.Some?
  {
    s.(active := Some(s.active.value.(collection := collection)))
  }

  function WithDelivery(s: Snapshot, delivery: DeliveryState): Snapshot
    requires s.active.Some?
  {
    s.(active := Some(s.active.value.(delivery := delivery)))
  }

  function RecordCompleted(s: Snapshot, fence: AttemptFence, rows: U64, candidate: Option<Cursor>): Step<RecordOutcome> {
    var ready := RequireValidActive(s, fence);
    if ready.Fail? then Step(s, Err(ready.error))
    else
      var valid := ValidateCandidate(s.committed, rows, candidate);
      if valid.Fail? then Step(s, Err(valid.error))
      else match s.active.value.collection
        case InProgress => Step(WithCollection(s, Completed(rows, candidate)), Ok(Recorded))
        case Completed(recordedRows, recordedCandidate) =>
          if recordedRows == rows && recordedCandidate == candidate then Step(s, Ok(Unchanged))
          else Step(s, Err(ConflictingCollectionState))
        case Failed => Step(s, Err(ConflictingCollectionState))
  }

  function RecordFailed(s: Snapshot, fence: AttemptFence): Step<RecordOutcome> {
    var ready := RequireValidActive(s, fence);
    if ready.Fail? then Step(s, Err(ready.error))
    else match s.active.value.collection
      case InProgress => Step(WithCollection(s, CollectionState.Failed), Ok(Recorded))
      case Failed => Step(s, Ok(Unchanged))
      case Completed(_, _) => Step(s, Err(ConflictingCollectionState))
  }

  function RecordConfirmed(s: Snapshot, fence: AttemptFence, rows: U64): Step<RecordOutcome> {
    var ready := RequireValidActive(s, fence);
    if ready.Fail? then Step(s, Err(ready.error))
    else match s.active.value.delivery
      case InProgress => Step(WithDelivery(s, Confirmed(rows)), Ok(Recorded))
      case Confirmed(recordedRows) =>
        if recordedRows == rows then Step(s, Ok(Unchanged)) else Step(s, Err(ConflictingDeliveryState))
      case Failed => Step(s, Err(ConflictingDeliveryState))
      case Uncertain => Step(s, Err(ConflictingDeliveryState))
  }

  /** Shared by delivery_failed and delivery_uncertain. */
  function RecordTerminal(s: Snapshot, fence: AttemptFence, terminal: DeliveryState): Step<RecordOutcome> {
    var ready := RequireValidActive(s, fence);
    if ready.Fail? then Step(s, Err(ready.error))
    else if s.active.value.delivery.InProgress? then Step(WithDelivery(s, terminal), Ok(Recorded))
    else if s.active.value.delivery == terminal then Step(s, Ok(Unchanged))
    else Step(s, Err(ConflictingDeliveryState))
  }

  function CursorAdvanced(committed: Option<Cursor>, candidate: Option<Cursor>): bool {
    match (committed, candidate)
    case (Some(previous), Some(position)) => PositionCmp(position, previous) == Greater
    case (None, Some(_)) => true
    case (_, None) => false
  }

  function Commit(s: Snapshot, fence: AttemptFence): Step<CommitOutcome> {
    var valid := Validate(s);
    if valid.Fail? then Step(s, Err(valid.error))
    else if s.last.Some? && s.last.value.fence == fence then Step(s, Ok(AlreadyCommitted(s.generation)))
    else
      var ready := RequireActiveFence(s, fence);
      if ready.Fail? then Step(s, Err(ready.error))
      else match s.active.value.collection
        case InProgress => Step(s, Err(CheckpointError.CollectionInProgress))
        case Failed => Step(s, Err(CheckpointError.CollectionFailed))
        case Completed(rows, candidate) =>
          match s.active.value.delivery
          case InProgress => Step(s, Err(CheckpointError.DeliveryInProgress))
          case Failed => Step(s, Err(CheckpointError.DeliveryFailed))
          case Uncertain => Step(s, Err(CheckpointError.DeliveryUncertain))
          case Confirmed(deliveredRows) =>
            if rows != deliveredRows then Step(s, Err(CheckpointError.RowCountMismatch))
            else if s.generation == MAX_U64 then Step(s, Err(GenerationOverflow))
            else
              var next := s.(
                committed := if candidate.Some? then candidate else s.committed,
                generation := s.generation + 1,
                active := None,
                last := Some(CommittedAttempt(fence, s.generation + 1)));
              Step(next, Ok(Committed(s.generation + 1, CursorAdvanced(s.committed, candidate))))
  }

  function Disposition(active: ActiveAttempt): RecoveryDisposition {
    match (active.collection, active.delivery)
    case (Failed, _) => Replay(ReplayReason.CollectionFailed)
    case (_, Failed) => Replay(ReplayReason.DeliveryFailed)
    case (_, Uncertain) => Replay(ReplayReason.DeliveryUncertain)
    case (InProgress, _) => Replay(ReplayReason.CollectionInProgress)
    case (Completed(_, _), InProgress) => Replay(ReplayReason.DeliveryInProgress)
    case (Completed(rows, _), Confirmed(deliveredRows)) =>
      if rows != deliveredRows then Replay(ReplayReason.RowCountMismatch) else DoCommit
  }

  function Recover(s: Snapshot, configurationId: ConfigurationId, generation: U64): Step<RecoveryAction> {
    var valid := Validate(s);
    if valid.Fail? then Step(s, Err(valid.error))
    else
      var context := RequireSnapshotContext(s, configurationId, generation);
      if context.Fail? then Step(s, Err(context.error))
      else if s.active.None? then Step(s, Ok(StartNewAttempt))
      else
        var fence := s.active.value.fence;
        match Disposition(s.active.value)
        case Replay(reason) => Step(s.(active := None), Ok(ReplayFromCommitted(fence.attemptId, reason)))
        case DoCommit =>
          var commit := Commit(s, fence);
          match commit.result
          case Ok(Committed(generation, advanced)) =>
            Step(commit.next, Ok(RecoveredCommit(fence.attemptId, generation, advanced)))
          case Ok(AlreadyCommitted(_)) =>
            // The attempt is fenced to this generation, the last commit to the one before it.
            assert false;
            Step(s, Ok(StartNewAttempt))
          case Err(error) => Step(commit.next, Err(error))
  }
}
