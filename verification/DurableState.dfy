/**
 The persisted state of one rising input, the checks it must pass, and the transitions a
 compare-exchange accepts.
 */
module DurableState {
  import opened Wrappers
  import opened Cursors
  import opened Identity
  import opened Spool
  import opened C = Checkpoint

  const DURABLE_STATE_FORMAT_VERSION: nat := 2
  const MAX_SEGMENTS_PER_SCAN: nat := 4_096

  /** The digest authenticates the whole segment. */
  datatype SegmentRef = SegmentRef(segmentId: SegmentId, sequence: U64, page: U64, rows: U64, digest: Segment)

  datatype ActiveScan = ActiveScan(
    attemptId: AttemptId,
    baseCommitted: Option<Cursor>,
    resumeAfter: Option<Cursor>,
    maximumCandidate: Option<Cursor>,
    compactedThrough: U64,
    compactedRows: U64,
    nextPage: U64,
    complete: bool,
    segments: seq<SegmentRef>,
    deliveredThrough: U64)

  datatype InputState = InputState(
    formatVersion: nat,
    identity: SourceIdentity,
    revision: Revision,
    configurationGeneration: U64,
    coordinator: Snapshot,
    scan: Option<ActiveScan>)

  function SumRows(segments: seq<SegmentRef>): nat {
    if segments == [] then 0 else segments[0].rows + SumRows(segments[1..])
  }

  /** All rows adopted in the attempt, pruned references included. */
  function SealedRows(scan: ActiveScan): nat {
    scan.compactedRows + SumRows(scan.segments)
  }

  function SegmentCount(scan: ActiveScan): nat {
    scan.compactedThrough + |scan.segments|
  }

  predicate CanonicalSegments(scan: ActiveScan) {
    && (forall i :: 0 <= i < |scan.segments| ==>
          && scan.segments[i].sequence == scan.compactedThrough + 1 + i
          && scan.segments[i].page == scan.compactedThrough + 1 + i
          && scan.segments[i].rows > 0)
    && (forall i, j :: 0 <= i < j < |scan.segments| ==> scan.segments[i].segmentId != scan.segments[j].segmentId)
    && scan.nextPage == SegmentCount(scan) + 1
    && SealedRows(scan) <= MAX_U64
  }

  predicate ValidReceipts(scan: ActiveScan) {
    && scan.compactedThrough <= scan.deliveredThrough <= SegmentCount(scan)
    && (scan.compactedThrough == 0 <==> scan.compactedRows == 0)
  }

  predicate ValidScanCursors(scan: ActiveScan) {
    && (if SegmentCount(scan) == 0 then
          scan.nextPage == 1 && scan.resumeAfter.None? && scan.maximumCandidate.None?
        else scan.resumeAfter.Some?)
    && (scan.maximumCandidate.Some? && scan.resumeAfter.Some? ==>
          PositionCmp(scan.maximumCandidate.value, scan.resumeAfter.value) != Less)
    && (scan.maximumCandidate.Some? && scan.baseCommitted.Some? ==>
          PositionCmp(scan.maximumCandidate.value, scan.baseCommitted.value) != Less)
    && (SealedRows(scan) > 0 ==> scan.maximumCandidate.Some?)
  }

  predicate ValidProgress(scan: ActiveScan, active: ActiveAttempt) {
    && (match active.collection
        case Completed(rows, candidate) =>
          && scan.complete
          && rows == SealedRows(scan)
          && candidate == scan.maximumCandidate
          && (rows > 0 ==> scan.resumeAfter.Some?)
        case _ => !scan.complete)
    && (active.delivery.Confirmed? ==>
          && scan.complete
          && scan.deliveredThrough == SegmentCount(scan)
          && active.delivery.rows == SealedRows(scan))
  }

  predicate ValidScan(scan: ActiveScan, s: Snapshot) {
    && s.active.Some?
    && s.active.value.fence.attemptId == scan.attemptId
    && scan.baseCommitted == s.committed
    && |scan.segments| <= MAX_SEGMENTS_PER_SCAN
    && ValidReceipts(scan)
    && CanonicalSegments(scan)
    && ValidScanCursors(scan)
    && ValidProgress(scan, s.active.value)
  }

  predicate ValidState(state: InputState) {
    && state.formatVersion == DURABLE_STATE_FORMAT_VERSION
    && state.configurationGeneration != 0
    && Valid(state.coordinator)
    && state.coordinator.configurationId == ConfigurationFence(state.revision, state.configurationGeneration)
    && (match state.scan
        case Some(scan) => ValidScan(scan, state.coordinator)
        case None => state.coordinator.active.None?)
  }

  // ---- transitions a compare-exchange accepts -------------------------------------------------

  datatype CheckpointTransition =
    | Kept
    | StartedAttempt
    | CompletedCollection
    | FailedCollection
    | ChangedDelivery
    | CommittedAttempt

  predicate Produces<T>(step: Step<T>, next: Snapshot) {
    step.result.Ok? && step.next == next
  }

  function Classify(current: Snapshot, next: Snapshot): Option<CheckpointTransition> {
    if current == next then Some(Kept)
    else
      var changed := if next.active.Some? then ClassifyActive(current, next, next.active.value) else None;
      if changed.Some? then changed
      else if current.active.Some? && Produces(Commit(current, current.active.value.fence), next) then
        Some(CheckpointTransition.CommittedAttempt)
      else None
  }

  function ClassifyActive(current: Snapshot, next: Snapshot, active: ActiveAttempt): Option<CheckpointTransition> {
    if Produces(StartAttempt(current, active.fence), next) then Some(StartedAttempt)
    else if && active.collection.Completed?
            && Produces(RecordCompleted(current, active.fence, active.collection.rows, active.collection.candidate), next)
    then Some(CompletedCollection)
    else if active.collection.Failed? && Produces(RecordFailed(current, active.fence), next) then Some(FailedCollection)
    else if && active.delivery.Confirmed?
            && Produces(RecordConfirmed(current, active.fence, active.delivery.rows), next)
    then Some(ChangedDelivery)
    else if && (active.delivery.Failed? || active.delivery.Uncertain?)
            && Produces(RecordTerminal(current, active.fence, active.delivery), next)
    then Some(ChangedDelivery)
    else None
  }

  predicate HasFullReceipt(scan: ActiveScan) {
    scan.complete && scan.deliveredThrough == SegmentCount(scan)
  }

  predicate InitialScan(scan: ActiveScan) {
    && scan.nextPage == 1 && !scan.complete && scan.segments == []
    && scan.resumeAfter.None? && scan.maximumCandidate.None?
    && scan.compactedThrough == 0 && scan.compactedRows == 0 && scan.deliveredThrough == 0
  }

  predicate StrictlyAdvances(current: Option<Cursor>, next: Option<Cursor>) {
    next.Some? && (current.Some? ==> PositionCmp(next.value, current.value) == Greater)
  }

  predicate Regresses(current: Option<Cursor>, next: Option<Cursor>) {
    current.Some? && (next.None? || PositionCmp(next.value, current.value) == Less)
  }

  predicate ScanAppends(current: ActiveScan, next: ActiveScan, completes: bool) {
    && current.attemptId == next.attemptId
    && current.baseCommitted == next.baseCommitted
    && !current.complete
    && next.complete == completes
    && current.compactedThrough == next.compactedThrough
    && current.compactedRows == next.compactedRows
    && current.deliveredThrough == next.deliveredThrough
    && current.nextPage <= next.nextPage
    && current.segments <= next.segments
    && (match |next.segments| - |current.segments|
        case 0 =>
          && next.nextPage == current.nextPage
          && next.resumeAfter == current.resumeAfter
          && next.maximumCandidate == current.maximumCandidate
          && completes
        case 1 =>
          && next.nextPage == current.nextPage + 1
          && StrictlyAdvances(current.resumeAfter, next.resumeAfter)
          && !Regresses(current.maximumCandidate, next.maximumCandidate)
        case _ => false)
  }

  predicate ReceiptAdvances(current: ActiveScan, next: ActiveScan) {
    var lastSequence :=
      if current.segments == [] then current.compactedThrough else current.segments[|current.segments| - 1].sequence;
    && next.deliveredThrough == current.deliveredThrough + 1
    && next.deliveredThrough <= lastSequence
    && next == current.(deliveredThrough := next.deliveredThrough)
  }

  predicate ScanCompacts(current: ActiveScan, next: ActiveScan) {
    && current.compactedThrough < next.compactedThrough <= current.deliveredThrough
    && var removed := next.compactedThrough - current.compactedThrough;
    && removed <= |current.segments|
    && next.compactedRows == current.compactedRows + SumRows(current.segments[..removed])
    && next == current.(
         compactedThrough := next.compactedThrough,
         compactedRows := next.compactedRows,
         segments := current.segments[removed..])
  }

  predicate ScanTransition(current: InputState, next: InputState, transition: CheckpointTransition) {
    match transition
    case Kept =>
      (match (current.scan, next.scan)
       case (Some(a), Some(b)) =>
         if a.deliveredThrough != b.deliveredThrough then ReceiptAdvances(a, b)
         else if a.compactedThrough != b.compactedThrough || a.compactedRows != b.compactedRows then ScanCompacts(a, b)
         else
           && current.coordinator.active.Some?
           && current.coordinator.active.value.collection.InProgress?
           && ScanAppends(a, b, false)
       case _ => false)
    case StartedAttempt => current.scan.None? && next.scan.Some? && InitialScan(next.scan.value)
    case CompletedCollection =>
      current.scan.Some? && next.scan.Some? && ScanAppends(current.scan.value, next.scan.value, true)
    case FailedCollection => current.scan.Some? && current.scan == next.scan
    case ChangedDelivery =>
      && current.scan.Some? && current.scan == next.scan
      && next.coordinator.active.Some?
      && (next.coordinator.active.value.delivery.Confirmed? ==> HasFullReceipt(next.scan.value))
    case CommittedAttempt => current.scan.Some? && next.scan.None? && HasFullReceipt(current.scan.value)
  }

  predicate ValidTransition(current: InputState, next: InputState) {
    && current.identity == next.identity
    && current.revision == next.revision
    && current.configurationGeneration == next.configurationGeneration
    && current.coordinator.generation <= next.coordinator.generation
    && var transition := Classify(current.coordinator, next.coordinator);
    && transition.Some?
    && ScanTransition(current, next, transition.value)
  }

  /** Everything a compare-exchange checks besides its token. */
  predicate StoreAccepts(current: InputState, next: InputState) {
    ValidState(next) && ValidTransition(current, next)
  }

  // ---- row sums -------------------------------------------------------------------------------

  lemma {:induction false} SumRowsAppend(a: seq<SegmentRef>, b: seq<SegmentRef>)
    ensures SumRows(a + b) == SumRows(a) + SumRows(b)
  {
    if a == [] {
      assert a + b == b;
    } else {
      SumRowsAppend(a[1..], b);
      assert (a + b)[1..] == a[1..] + b;
    }
  }

  /** Reading the references from `i` on costs the row count of reference `i` first. */
  lemma SumRowsFrom(segments: seq<SegmentRef>, i: nat)
    requires i < |segments|
    ensures SumRows(segments[i..]) == segments[i].rows + SumRows(segments[i + 1..])
  {
    assert segments[i..][1..] == segments[i + 1..];
  }

  lemma SumRowsSplit(segments: seq<SegmentRef>, i: nat)
    requires i <= |segments|
    ensures SumRows(segments) == SumRows(segments[..i]) + SumRows(segments[i..])
  {
    SumRowsAppend(segments[..i], segments[i..]);
    assert segments == segments[..i] + segments[i..];
  }
}
