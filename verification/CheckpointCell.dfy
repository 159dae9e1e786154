/** The checkpoint snapshot as the object the daemon mutates, call by call. */
module CheckpointCell {
  import opened Wrappers
  import opened Cursors
  import opened Identity
  import opened C = Checkpoint

  class SnapshotCell {
    var formatVersion: nat
    var configurationId: ConfigurationId
    var generation: U64
    var committed: Option<Cursor>
    var active: Option<ActiveAttempt>
    var last: Option<CommittedAttempt>

    function Value(): Snapshot
      reads this
    {
      Snapshot(formatVersion, configurationId, generation, committed, active, last)
    }

    constructor (configurationId: ConfigurationId, generation: U64, committed: Option<Cursor>)
      ensures Value() == NewSnapshot(configurationId, generation, committed)
    {
      this.formatVersion := SNAPSHOT_FORMAT_VERSION;
      this.configurationId := configurationId;
      this.generation := generation;
      this.committed := committed;
      this.active, this.last := None, None;
    }

    method StartAttempt(fence: AttemptFence) returns (r: Result<StartOutcome, CheckpointError>)
      modifies this
      ensures Step(Value(), r) == C.StartAttempt(old(Value()), fence)
    {
      var before := Value();
      :- Validate(before);
      :- RequireCurrentContext(Value(), fence);
      match active {
        case Some(current) =>
          if current.fence.attemptId == fence.attemptId {
            return Ok(AlreadyActive);
          }
          return Err(ActiveAttemptExists);
        case None =>
          active := Some(ActiveAttempt(fence, CollectionState.InProgress, DeliveryState.InProgress));
          return Ok(Started);
      }
    }

    method CollectionCompleted(fence: AttemptFence, rows: U64, candidate: Option<Cursor>)
      returns (r: Result<RecordOutcome, CheckpointError>)
      modifies this
      ensures Step(Value(), r) == C.RecordCompleted(old(Value()), fence, rows, candidate)
    {
      var before := Value();
      :- Validate(before);
      :- RequireActiveFence(Value(), fence);
      :- ValidateCandidate(committed, rows, candidate);
      match active.value.collection {
        case InProgress =>
          active := Some(active.value.(collection := Completed(rows, candidate)));
          return Ok(Recorded);
        case Completed(recordedRows, recordedCandidate) =>
          if recordedRows == rows && recordedCandidate == candidate {
            return Ok(Unchanged);
          }
          return Err(ConflictingCollectionState);
        case Failed =>
          return Err(ConflictingCollectionState);
      }
    }

    method CollectionFailed(fence: AttemptFence) returns (r: Result<RecordOutcome, CheckpointError>)
      modifies this
      ensures Step(Value(), r) == C.RecordFailed(old(Value()), fence)
    {
      var before := Value();
      :- Validate(before);
      :- RequireActiveFence(Value(), fence);
      match active.value.collection {
        case InProgress =>
          active := Some(active.value.(collection := CollectionState.Failed));
          return Ok(Recorded);
        case Failed =>
          return Ok(Unchanged);
        case Completed(_, _) =>
          return Err(ConflictingCollectionState);
      }
    }

    method DeliveryConfirmed(fence: AttemptFence, rows: U64) returns (r: Result<RecordOutcome, CheckpointError>)
      modifies this
      ensures Step(Value(), r) == C.RecordConfirmed(old(Value()), fence, rows)
    {
      var before := Value();
      :- Validate(before);
      :- RequireActiveFence(Value(), fence);
      match active.value.delivery {
        case InProgress =>
          active := Some(active.value.(delivery := Confirmed(rows)));
          return Ok(Recorded);
        case Confirmed(recordedRows) =>
          if recordedRows == rows {
            return Ok(Unchanged);
          }
          return Err(ConflictingDeliveryState);
        case Failed =>
          return Err(ConflictingDeliveryState);
        case Uncertain =>
          return Err(ConflictingDeliveryState);
      }
    }

    method DeliveryFailed(fence: AttemptFence) returns (r: Result<RecordOutcome, CheckpointError>)
      modifies this
      ensures Step(Value(), r) == RecordTerminal(old(Value()), fence, DeliveryState.Failed)
    {
      r := RecordDeliveryTerminal(fence, DeliveryState.Failed);
    }

    method DeliveryUncertain(fence: AttemptFence) returns (r: Result<RecordOutcome, CheckpointError>)
      modifies this
      ensures Step(Value(), r) == RecordTerminal(old(Value()), fence, Uncertain)
    {
      r := RecordDeliveryTerminal(fence, Uncertain);
    }

    method RecordDeliveryTerminal(fence: AttemptFence, terminal: DeliveryState)
      returns (r: Result<RecordOutcome, CheckpointError>)
      modifies this
      ensures Step(Value(), r) == RecordTerminal(old(Value()), fence, terminal)
    {
      var before := Value();
      :- Validate(before);
      :- RequireActiveFence(Value(), fence);
      if active.value.delivery.InProgress? {
        active := Some(active.value.(delivery := terminal));
        return Ok(Recorded);
      } else if active.value.delivery == terminal {
        return Ok(Unchanged);
      }
      return Err(ConflictingDeliveryState);
    }

    method Commit(fence: AttemptFence) returns (r: Result<CommitOutcome, CheckpointError>)
      modifies this
      ensures Step(Value(), r) == C.Commit(old(Value()), fence)
    {
      var before := Value();
      :- Validate(before);
      if last.Some? && last.value.fence == fence {
        return Ok(AlreadyCommitted(generation));
      }
      :- RequireActiveFence(Value(), fence);
      var rows, candidate;
      match active.value.collection {
        case InProgress => return Err(CheckpointError.CollectionInProgress);
        case Completed(collectedRows, collectedCandidate) => rows, candidate := collectedRows, collectedCandidate;
        case Failed => return Err(CheckpointError.CollectionFailed);
      }
      var deliveredRows;
      match active.value.delivery {
        case InProgress => return Err(CheckpointError.DeliveryInProgress);
        case Confirmed(confirmedRows) => deliveredRows := confirmedRows;
        case Failed => return Err(CheckpointError.DeliveryFailed);
        case Uncertain => return Err(CheckpointError.DeliveryUncertain);
      }
      if rows != deliveredRows {
        return Err(CheckpointError.RowCountMismatch);
      }
      if generation == MAX_U64 {
        return Err(GenerationOverflow);
      }
      var advanced := CursorAdvanced(committed, candidate);
      if candidate.Some? {
        committed := candidate;
      }
      generation := generation + 1;
      active := None;
      last := Some(CommittedAttempt(fence, generation));
      return Ok(Committed(generation, advanced));
    }

    method Recover(configurationId: ConfigurationId, generation: U64) returns (r: Result<RecoveryAction, CheckpointError>)
      modifies this
      ensures Step(Value(), r) == C.Recover(old(Value()), configurationId, generation)
    {
      var before := Value();
      :- Validate(before);
      :- RequireSnapshotContext(Value(), configurationId, generation);
      if active.None? {
        return Ok(StartNewAttempt);
      }
      var fence := active.value.fence;
      match Disposition(active.value) {
        case DoCommit =>
          var outcome :- Commit(fence);
          match outcome {
            case Committed(resulting, advanced) =>
              return Ok(RecoveredCommit(fence.attemptId, resulting, advanced));
            case AlreadyCommitted(_) =>
              assert false;
          }
        case Replay(reason) =>
          active := None;
          return Ok(ReplayFromCommitted(fence.attemptId, reason));
      }
    }
  }
}
