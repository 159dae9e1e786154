/** The invariant of the rising protocol, in terms of positions in the source. */
module Invariant {
  import opened Wrappers
  import opened Cursors
  import opened Identity
  import opened Source
  import opened Spool
  import opened C = Checkpoint
  import opened DurableState
  import opened Rising
  import opened Protocol

  /** Rows at or before the committed cursor. */
  function CommittedIndex(state: InputState, source: seq<Row>): nat {
    Through(source, state.coordinator.committed)
  }

  /** Rows the first query of the scan leaves out. */
  function LowIndex(state: InputState, source: seq<Row>): nat {
    match InitialBound(SpecOf(state.identity, state.revision), state.coordinator.committed)
    case Ok(bound) => Skip(source, bound)
    case Err(_) => 0
  }

  /** Rows before the next page of the scan. */
  function Frontier(state: InputState, scan: ActiveScan, source: seq<Row>): nat {
    if scan.resumeAfter.Some? then Through(source, scan.resumeAfter) else LowIndex(state, source)
  }

  /** Where the rows of reference `i` start: the references cover the rows up to the frontier. */
  function RefStart(scan: ActiveScan, i: nat, frontier: nat): int
    requires i <= |scan.segments|
  {
    frontier - SumRows(scan.segments[i..])
  }

  predicate Holds(source: seq<Row>, from: int, events: seq<Row>) {
    && 0 <= from && from + |events| <= |source|
    && source[from..from + |events|] == events
  }

  /** The cursors a page reports agree with its last row. */
  predicate ReportsLastRow(events: seq<Row>, committed: Option<Cursor>, candidate: Option<Cursor>, resume: Option<Cursor>) {
    && events != []
    && resume == Some(events[|events| - 1].cursor)
    && candidate == Some(MaxCursor(events[|events| - 1].cursor, committed))
  }

  ghost predicate CursorsAgree(state: InputState, scan: ActiveScan, source: seq<Row>, k: nat) {
    var frontier := Frontier(state, scan, source);
    && frontier == LowIndex(state, source) + SealedRows(scan)
    && (k <= CommittedIndex(state, source) || k <= frontier)
    && (match scan.resumeAfter
        case None => scan.maximumCandidate.None?
        case Some(resume) =>
          && InitialBound(SpecOf(state.identity, state.revision), state.coordinator.committed).Ok?
          && 1 <= frontier && source[frontier - 1].cursor == resume
          && scan.maximumCandidate == Some(MaxCursor(resume, state.coordinator.committed)))
    && state.coordinator.active.Some?
    && !state.coordinator.active.value.collection.Failed?
    && (state.coordinator.active.value.delivery.InProgress? || state.coordinator.active.value.delivery.Confirmed?)
  }

  /** A retained copy of reference `i`: the right rows, and acknowledged once delivered. */
  predicate RetainedCopy(scan: ActiveScan, spool: Store, source: seq<Row>, frontier: nat, k: nat, i: int)
    requires 0 <= i < |scan.segments|
  {
    var id := scan.segments[i].segmentId;
    var start := RefStart(scan, i, frontier);
    && AcceptsReference(scan, spool, i)
    && (id in spool ==>
          && Holds(source, start, spool[id].segment.events)
          && (spool[id].Delivered? ==> start + scan.segments[i].rows <= k))
  }

  /** The one sealed page that no reference names yet. */
  predicate NextPage(state: InputState, scan: ActiveScan, located: Located, source: seq<Row>, frontier: nat) {
    && AdoptableRole(scan, located)
    && scan.deliveredThrough == SegmentCount(scan)
    && EffectiveBound(RequestOf(state, scan)).Ok?
    && located.segment.metadata.request == FingerprintOf(RequestOf(state, scan))
    && Holds(source, frontier, located.segment.events)
    && ReportsLastRow(
         located.segment.events, state.coordinator.committed,
         located.segment.metadata.candidate, located.segment.metadata.resume)
  }

  ghost predicate AllInFence(state: InputState, spool: Store) {
    forall id :: id in spool ==> spool[id].segment.id == id && InFence(state, spool[id].segment)
  }

  ghost predicate AllRetained(scan: ActiveScan, spool: Store, source: seq<Row>, frontier: nat, k: nat) {
    forall i :: 0 <= i < |scan.segments| ==> RetainedCopy(scan, spool, source, frontier, k, i)
  }

  /** At most one retained segment has no reference, and it is the next page. */
  ghost predicate OnlyNextPage(state: InputState, scan: ActiveScan, spool: Store, source: seq<Row>, frontier: nat) {
    && (forall id :: id in spool && !Referenced(scan, id) ==> NextPage(state, scan, spool[id], source, frontier))
    && (forall a, b :: a in spool && b in spool && !Referenced(scan, a) && !Referenced(scan, b) ==> a == b)
  }

  ghost predicate SpoolAgrees(state: InputState, scan: ActiveScan, spool: Store, source: seq<Row>, k: nat) {
    var frontier := Frontier(state, scan, source);
    && AllInFence(state, spool)
    && AllRetained(scan, spool, source, frontier, k)
    && OnlyNextPage(state, scan, spool, source, frontier)
    // Everything before the first reference without a receipt has been acknowledged.
    && 0 <= NextPending(scan) <= |scan.segments|
    && RefStart(scan, NextPending(scan), frontier) <= k
  }

  predicate PageAgrees(state: InputState, scan: ActiveScan, source: seq<Row>, page: Page) {
    if page.rows == [] then page.resume.None?
    else
      && Holds(source, Frontier(state, scan, source), page.rows)
      && ReportsLastRow(page.rows, state.coordinator.committed, page.candidate, page.resume)
  }

  ghost predicate WorkerAgrees(w: World, state: InputState, scan: ActiveScan) {
    !w.worker.Idle? ==>
      && WantsPage(w)
      && w.worker.context == ContextOf(state, scan)
      && EffectiveBound(RequestOf(state, scan)).Ok?
      && (w.worker.Collected? ==>
            PageAgrees(state, scan, w.source, w.worker.page))
  }

  ghost predicate SendingAgrees(w: World, state: InputState, scan: ActiveScan, k: nat) {
    w.sending.Some? ==>
      && w.worker.Idle?
      && HasPending(scan)
      && w.sending.value.id == PendingId(scan)
      && w.sending.value.id in w.spool && w.spool[w.sending.value.id].Ready?
      && w.sending.value.sent <= |w.spool[w.sending.value.id].segment.events|
      && RefStart(scan, NextPending(scan), Frontier(state, scan, w.source)) + w.sending.value.sent <= k
  }

  ghost predicate ScanInv(w: World, state: InputState, scan: ActiveScan, k: nat) {
    && CursorsAgree(state, scan, w.source, k)
    && SpoolAgrees(state, scan, w.spool, w.source, k)
    && WorkerAgrees(w, state, scan)
    && SendingAgrees(w, state, scan, k)
  }

  ghost predicate StateInv(w: World, state: InputState, k: nat) {
    && ValidState(state)
    && CommittedIndex(state, w.source) <= k
    && (match state.scan
        case None => w.spool == map[] && Quiet(w) && k == CommittedIndex(state, w.source)
        case Some(scan) => ScanInv(w, state, scan, k))
  }

  ghost predicate Inv(w: World) {
    && Sorted(w.source)
    && |Dedup(w.log)| <= |w.source|
    && Dedup(w.log) == w.source[..|Dedup(w.log)|]
    && (match w.store
        case None => w.spool == map[] && Quiet(w) && w.log == []
        case Some(state) => StateInv(w, state, |Dedup(w.log)|))
  }

  // ---- positions ------------------------------------------------------------------------------

  lemma LowAtMostCommitted(state: InputState, source: seq<Row>)
    requires Sorted(source)
    ensures LowIndex(state, source) <= CommittedIndex(state, source)
  {
    var spec, committed := SpecOf(state.identity, state.revision), state.coordinator.committed;
    match InitialBound(spec, committed) {
      case Err(_) =>
      case Ok(bound) =>
        var u := CommittedIndex(state, source);
        SkipSplits(source, bound);
        if committed.None? {
          SkipIs(source, None, 0);
        } else {
          ThroughSplits(source, committed.value);
          if u < |source| {
            InitialBoundAdmitsAfterCommitted(spec, committed, source[u].cursor);
          }
        }
    }
  }

  lemma FrontierIsSkip(state: InputState, scan: ActiveScan, source: seq<Row>)
    requires EffectiveBound(RequestOf(state, scan)).Ok?
    ensures Skip(source, EffectiveBound(RequestOf(state, scan)).value) == Frontier(state, scan, source)
  {
  }

  lemma CollectedPageAgrees(state: InputState, scan: ActiveScan, source: seq<Row>, maxRows: nat)
    requires Sorted(source) && maxRows >= 1
    requires EffectiveBound(RequestOf(state, scan)).Ok?
    ensures
      var request := RequestOf(state, scan);
      PageAgrees(state, scan, source, Collect(source, EffectiveBound(request).value, request.committed, maxRows))
  {
    FrontierIsSkip(state, scan, source);
  }

  // ---- the actions that leave state and spool alone -------------------------------------------

  lemma CrashKeepsInv(w: World)
    requires Inv(w)
    ensures Inv(Effect(w, Crash))
  {
  }

  lemma ReconfigureKeepsInv(w: World, prepared: Prepared)
    requires Inv(w) && Enabled(w, Reconfigure(prepared))
    ensures Inv(Effect(w, Reconfigure(prepared)))
  {
  }

  lemma CreateKeepsInv(w: World)
    requires Inv(w) && Enabled(w, CreateState)
    ensures Inv(Effect(w, CreateState))
  {
  }

  lemma ActivateKeepsInv(w: World)
    requires Inv(w) && Enabled(w, Activate)
    ensures Inv(Effect(w, Activate))
  {
  }

  lemma StartKeepsInv(w: World, attemptId: AttemptId)
    requires Inv(w) && Enabled(w, StartScan(attemptId))
    ensures Inv(Effect(w, StartScan(attemptId)))
  {
    LowAtMostCommitted(w.store.value, w.source);
  }

  lemma AssignKeepsInv(w: World)
    requires Inv(w) && Enabled(w, Assign)
    ensures Inv(Effect(w, Assign))
  {
  }

  lemma CollectKeepsInv(w: World, maxRows: nat)
    requires Inv(w) && Enabled(w, CollectPage(maxRows))
    ensures Inv(Effect(w, CollectPage(maxRows)))
  {
    CollectedPageAgrees(w.store.value, w.store.value.scan.value, w.source, maxRows);
  }
}
