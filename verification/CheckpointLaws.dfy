/**
 What each checkpoint call accepts, what it writes, and what it answers to a repeat, a stale fence or a
 conflict, in terms of the snapshot's fields alone.
 */
module CheckpointLaws {
  import opened Wrappers
  import opened Cursors
  import opened Identity
  import opened C = Checkpoint
  import opened CheckpointRuns

  // ---- validity -------------------------------------------------------------------------------

  /** The candidate of so many rows: there is one exactly if there are rows, and it is not behind the committed cursor. */
  predicate Fitting(committed: Option<Cursor>, rows: U64, candidate: Option<Cursor>) {
    && (rows == 0 <==> candidate.None?)
    && (committed.Some? && candidate.Some? ==> AtMost(committed.value, candidate.value))
  }

  /**
   A snapshot is valid if its attempt is fenced to its own configuration and generation, a recorded
   candidate fits, and the last commit led to this generation under this configuration.
   */
  lemma ValidExactlyWhen(s: Snapshot)
    ensures Valid(s) <==>
      && s.formatVersion == 1
      && (s.active.Some? ==>
            && s.active.value.fence.configurationId == s.configurationId
            && s.active.value.fence.generation == s.generation
            && (s.active.value.collection.Completed? ==>
                  Fitting(s.committed, s.active.value.collection.rows, s.active.value.collection.candidate)))
      && (s.last.Some? ==>
            && s.last.value.fence.configurationId == s.configurationId
            && s.last.value.fence.generation + 1 == s.last.value.resultingGeneration == s.generation)
  {
  }

  /** Nothing is done on an invalid snapshot. */
  lemma InvalidIsRefused(s: Snapshot, call: Call)
    requires !Valid(s)
    ensures Apply(s, call).next == s && ErrorOf(Apply(s, call).reply) in {Some(UnsupportedSnapshotVersion), Some(InvalidSnapshot),
      Some(CandidateForEmptyCollection), Some(MissingCandidate), Some(CandidateRegression)}
    ensures s.formatVersion != 1 <==> ErrorOf(Apply(s, call).reply) == Some(UnsupportedSnapshotVersion)
  {
  }

  function ErrorOf(reply: Reply): Option<CheckpointError> {
    match reply
    case StartReply(r) => if r.Err? then Some(r.error) else None
    case RecordReply(r) => if r.Err? then Some(r.error) else None
    case CommitReply(r) => if r.Err? then Some(r.error) else None
    case RecoverReply(r) => if r.Err? then Some(r.error) else None
  }

  // ---- fences ---------------------------------------------------------------------------------

  function FenceOf(call: Call): Option<AttemptFence> {
    match call
    case Start(fence) => Some(fence)
    case CompleteCollection(fence, _, _) => Some(fence)
    case FailCollection(fence) => Some(fence)
    case ConfirmDelivery(fence, _) => Some(fence)
    case FailDelivery(fence) => Some(fence)
    case DoubtDelivery(fence) => Some(fence)
    case CommitAttempt(fence) => Some(fence)
    case RecoverAttempt(_, _) => None
  }

  predicate IsActive(s: Snapshot, fence: AttemptFence) {
    s.active.Some? && s.active.value.fence == fence
  }

  /** What is wrong with the fence of a call, if anything. */
  function FenceError(s: Snapshot, fence: AttemptFence): Option<CheckpointError> {
    if fence.configurationId != s.configurationId then Some(ConfigurationMismatch)
    else if fence.generation != s.generation then Some(GenerationMismatch)
    else if s.active.None? then Some(NoActiveAttempt)
    else if s.active.value.fence.attemptId != fence.attemptId then Some(AttemptMismatch)
    else None
  }

  /** A call of an attempt that is not the active one is refused and says why, unless it repeats the last commit. */
  lemma StaleFenceIsRefused(s: Snapshot, call: Call)
    requires Valid(s) && FenceOf(call).Some? && !call.Start?
    requires call.CommitAttempt? ==> !(s.last.Some? && s.last.value.fence == call.fence)
    ensures !IsActive(s, FenceOf(call).value) <==> FenceError(s, FenceOf(call).value).Some?
    ensures !IsActive(s, FenceOf(call).value) ==>
      Apply(s, call).next == s && ErrorOf(Apply(s, call).reply) == FenceError(s, FenceOf(call).value)
  {
  }

  /** An attempt starts exactly if its fence is current and none is active; started again it is left as it is. */
  lemma StartsExactlyWhen(s: Snapshot, fence: AttemptFence)
    requires Valid(s)
    ensures
      var a := Apply(s, Start(fence));
      if fence.configurationId != s.configurationId then a == Applied(s, StartReply(Err(ConfigurationMismatch)))
      else if fence.generation != s.generation then a == Applied(s, StartReply(Err(GenerationMismatch)))
      else if IsActive(s, fence) then a == Applied(s, StartReply(Ok(AlreadyActive)))
      else if s.active.Some? then a == Applied(s, StartReply(Err(ActiveAttemptExists)))
      else
        && a.reply == StartReply(Ok(Started))
        && a.next == s.(active := Some(ActiveAttempt(fence, CollectionState.InProgress, DeliveryState.InProgress)))
  {
  }

  // ---- recording ------------------------------------------------------------------------------

  /** What a collection call asks to be recorded. */
  function Collected(call: Call): CollectionState
    requires IsCollection(call)
  {
    if call.CompleteCollection? then Completed(call.rows, call.candidate) else CollectionState.Failed
  }

  function Delivered(call: Call): DeliveryState
    requires IsDelivery(call)
  {
    if call.ConfirmDelivery? then Confirmed(call.rows) else if call.FailDelivery? then DeliveryState.Failed else Uncertain
  }

  /** Of the active attempt, a fitting result is recorded once; the same again changes nothing, another is a conflict. */
  lemma CollectionIsRecordedOnce(s: Snapshot, call: Call)
    requires Valid(s) && IsCollection(call) && IsActive(s, call.fence)
    requires call.CompleteCollection? ==> Fitting(s.committed, call.rows, call.candidate)
    ensures
      var a, active := Apply(s, call), s.active.value;
      if active.collection.InProgress? then
        a == Applied(s.(active := Some(active.(collection := Collected(call)))), RecordReply(Ok(Recorded)))
      else if active.collection == Collected(call) then a == Applied(s, RecordReply(Ok(Unchanged)))
      else a == Applied(s, RecordReply(Err(ConflictingCollectionState)))
  {
  }

  /** A candidate that does not fit is refused, whatever is recorded already. */
  lemma MisfitIsRefused(s: Snapshot, fence: AttemptFence, rows: U64, candidate: Option<Cursor>)
    requires Valid(s) && IsActive(s, fence) && !Fitting(s.committed, rows, candidate)
    ensures
      Apply(s, CompleteCollection(fence, rows, candidate)) == Applied(s, RecordReply(Err(
        if rows == 0 then CandidateForEmptyCollection
        else if candidate.None? then MissingCandidate
        else CandidateRegression)))
  {
  }

  lemma DeliveryIsRecordedOnce(s: Snapshot, call: Call)
    requires Valid(s) && IsDelivery(call) && IsActive(s, call.fence)
    ensures
      var a, active := Apply(s, call), s.active.value;
      if active.delivery.InProgress? then
        a == Applied(s.(active := Some(active.(delivery := Delivered(call)))), RecordReply(Ok(Recorded)))
      else if active.delivery == Delivered(call) then a == Applied(s, RecordReply(Ok(Unchanged)))
      else a == Applied(s, RecordReply(Err(ConflictingDeliveryState)))
  {
  }

  // ---- committing -----------------------------------------------------------------------------

  /** The collection is complete and the delivery confirmed, over the same rows. */
  predicate IsReady(active: ActiveAttempt) {
    active.collection.Completed? && active.delivery.Confirmed? && active.collection.rows == active.delivery.rows
  }

  /** What a commit of an active attempt lacks, in the order in which it is looked for. */
  function Lacks(s: Snapshot, active: ActiveAttempt): Option<CheckpointError> {
    if active.collection.InProgress? then Some(CheckpointError.CollectionInProgress)
    else if active.collection.Failed? then Some(CheckpointError.CollectionFailed)
    else if active.delivery.InProgress? then Some(CheckpointError.DeliveryInProgress)
    else if active.delivery.Failed? then Some(CheckpointError.DeliveryFailed)
    else if active.delivery.Uncertain? then Some(CheckpointError.DeliveryUncertain)
    else if active.collection.rows != active.delivery.rows then Some(CheckpointError.RowCountMismatch)
    else if s.generation == MAX_U64 then Some(GenerationOverflow)
    else None
  }

  /**
   A commit of the active attempt succeeds exactly if nothing is lacking. It then moves the cursor to
   the candidate, if there is one, takes the next generation, ends the attempt and remembers it; and it
   reports an advance exactly if the cursor moved.
   */
  lemma CommitsExactlyWhen(s: Snapshot, fence: AttemptFence)
    requires Valid(s) && IsActive(s, fence)
    ensures
      var a, active := Apply(s, CommitAttempt(fence)), s.active.value;
      if IsReady(active) && s.generation < MAX_U64 then
        && a.next.committed == (if active.collection.candidate.Some? then active.collection.candidate else s.committed)
        && a.next == Snapshot(
             1, s.configurationId, s.generation + 1, a.next.committed, None,
             Some(CommittedAttempt(fence, s.generation + 1)))
        && a.reply == CommitReply(Ok(Committed(s.generation + 1, a.next.committed != s.committed)))
      else a.next == s && Lacks(s, active).Some? && a.reply == CommitReply(Err(Lacks(s, active).value))
  {
  }

  /** The last commit is the one remembered, until another one. */
  lemma {:induction false} LastStays(s: Snapshot, calls: seq<Call>)
    requires Valid(s) && CommitCount(s, calls) == 0
    ensures After(s, calls).last == s.last && After(s, calls).generation == s.generation
    ensures Valid(After(s, calls))
  {
    if calls != [] {
      var n := |calls| - 1;
      LastStays(s, calls[..n]);
      ApplySafety(After(s, calls[..n]), calls[n]);
      OnlyCommitsRemember(After(s, calls[..n]), calls[n]);
    }
  }

  lemma OnlyCommitsRemember(s: Snapshot, call: Call)
    requires Valid(s) && !Apply(s, call).reply.IsCommit()
    ensures Apply(s, call).next.last == s.last
  {
  }

  /**
   A commit is answered once: by commit or by recovery, whatever calls come after it, its repeat is
   answered with the generation it led to and changes nothing, until another attempt is committed.
   */
  lemma CommitIsRemembered(s: Snapshot, call: Call, calls: seq<Call>)
    requires Valid(s) && Apply(s, call).reply.IsCommit()
    requires CommitCount(Apply(s, call).next, calls) == 0
    ensures s.active.Some?
    ensures
      var later := After(Apply(s, call).next, calls);
      Apply(later, CommitAttempt(s.active.value.fence)) ==
        Applied(later, CommitReply(Ok(AlreadyCommitted(s.generation + 1))))
  {
    CommitShape(s, call);
    ApplySafety(s, call);
    CommitsExactlyWhen(s, s.active.value.fence);
    RecoversExactlyWhen(s);
    LastStays(Apply(s, call).next, calls);
  }

  // ---- recovery -------------------------------------------------------------------------------

  /** Why an attempt is replayed: a failure first, then what is unknown, then what is unfinished. */
  function WhyReplayed(active: ActiveAttempt): Option<ReplayReason> {
    if active.collection.Failed? then Some(ReplayReason.CollectionFailed)
    else if active.delivery.Failed? then Some(ReplayReason.DeliveryFailed)
    else if active.delivery.Uncertain? then Some(ReplayReason.DeliveryUncertain)
    else if active.collection.InProgress? then Some(ReplayReason.CollectionInProgress)
    else if active.delivery.InProgress? then Some(ReplayReason.DeliveryInProgress)
    else if active.collection.rows != active.delivery.rows then Some(ReplayReason.RowCountMismatch)
    else None
  }

  /** Recovery commits what is ready and drops the rest with the reason; the cursor stays for the replay. */
  lemma RecoversExactlyWhen(s: Snapshot)
    requires Valid(s) && s.active.Some?
    ensures
      var a := Apply(s, RecoverAttempt(s.configurationId, s.generation));
      var active := s.active.value;
      if WhyReplayed(active).Some? then
        a == Applied(s.(active := None), RecoverReply(Ok(ReplayFromCommitted(active.fence.attemptId, WhyReplayed(active).value))))
      else if s.generation == MAX_U64 then a == Applied(s, RecoverReply(Err(GenerationOverflow)))
      else
        && a.next == Apply(s, CommitAttempt(active.fence)).next && a.next.generation == s.generation + 1
        && a.reply == RecoverReply(Ok(RecoveredCommit(active.fence.attemptId, s.generation + 1, a.next.committed != s.committed)))
  {
    CommitsExactlyWhen(s, s.active.value.fence);
  }

  /** In another context recovery does nothing; without an attempt it asks for a new one. */
  lemma RecoveryNeedsItsContext(s: Snapshot, configurationId: ConfigurationId, generation: U64)
    requires Valid(s)
    ensures
      var a := Apply(s, RecoverAttempt(configurationId, generation));
      && (configurationId != s.configurationId ==> a == Applied(s, RecoverReply(Err(ConfigurationMismatch))))
      && (configurationId == s.configurationId && generation != s.generation ==>
            a == Applied(s, RecoverReply(Err(GenerationMismatch))))
      && (configurationId == s.configurationId && generation == s.generation && s.active.None? ==>
            a == Applied(s, RecoverReply(Ok(StartNewAttempt))))
  {
  }

  /** A dropped attempt can be started again, from the same cursor, under the same fence. */
  lemma ReplayStartsOver(s: Snapshot)
    requires Valid(s) && s.active.Some? && WhyReplayed(s.active.value).Some?
    ensures
      var dropped := Apply(s, RecoverAttempt(s.configurationId, s.generation)).next;
      var again := Apply(dropped, Start(s.active.value.fence));
      && again.reply == StartReply(Ok(Started)) && again.next.committed == s.committed
      && again.next.active == Some(ActiveAttempt(s.active.value.fence, CollectionState.InProgress, DeliveryState.InProgress))
  {
    RecoversExactlyWhen(s);
  }
}
