/** A whole scan: from whatever a crash left, over a fixed table and without faults, to the commit that covers it. */
module Completion {
  import opened Wrappers
  import opened Cursors
  import opened Identity
  import opened Source
  import opened Spool
  import opened C = Checkpoint
  import opened DurableState
  import opened Rising
  import opened Protocol
  import opened Invariant
  import opened InvariantSteps
  import opened Safety
  import opened Recovery
  import opened Reconcile
  import opened Bounds

  /** How many rows lie before the next page. */
  function NextIndex(state: InputState, source: seq<Row>): (n: nat)
    ensures n <= |source|
  {
    match EffectiveBound(NextRequest(state))
    case Ok(bound) => Skip(source, bound)
    case Err(_) => 0
  }

  /** The scan, open or to be opened, can ask for its next page, and the commit has a generation left. */
  predicate Asking(state: InputState) {
    && AsksForPage(state)
    && EffectiveBound(NextRequest(state)).Ok?
    && state.coordinator.generation < MAX_U64
    && (state.scan.Some? ==> state.scan.value.segments == [])
  }

  ghost predicate FaultFree(c: Coordinator) {
    forall n :: c.faults(n).NoFault?
  }

  /** A coordinator at rest between two pages of a scan of its table. */
  ghost predicate Between(c: Coordinator, candidates: seq<AttemptId>)
    reads c
  {
    && c.Traced() && Quiet(c.World()) && c.spool == map[] && |c.source| < MAX_U64
    && Ensurable(c.World()) && Asking(Ensured(c.World())) && CanOpen(Ensured(c.World()), candidates)
  }

  // ---- what a page makes of the scan ----------------------------------------------------------

  lemma BeginsAsking(state: InputState, next: InputState, candidates: seq<AttemptId>)
    requires Asking(state) && Begins(state, next, candidates)
    ensures next.scan.Some? && Asking(next) && NextRequest(next) == NextRequest(state)
    ensures next.identity == state.identity && next.revision == state.revision
    ensures next.coordinator.generation == state.coordinator.generation
  {
    if state.scan.None? {
      var i :| 0 <= i < |candidates| && Opened(state, next, candidates[i]);
    }
  }

  /** Rows sealed so far lie before the next page. */
  lemma SealedBeforeNext(trace: seq<World>, w: World)
    requires Trace(trace, w) && Scanning(w) && EffectiveBound(NextRequest(w.store.value)).Ok?
    ensures SealedRows(ScanOf(w)) <= NextIndex(w.store.value, w.source)
    ensures NextIndex(w.store.value, w.source) == Frontier(w.store.value, ScanOf(w), w.source)
  {
    TraceInv(trace, w);
    FrontierIsSkip(w.store.value, ScanOf(w), w.source);
  }

  /** An incomplete scan that has delivered everything wants its next page. */
  lemma IncompleteWantsPage(trace: seq<World>, w: World)
    requires Resting(trace, w) && !ScanOf(w).complete && AllReceipted(ScanOf(w))
    ensures ScanWantsPage(w.store.value)
  {
    TraceInv(trace, w);
  }

  /** The spool with one page that no reference names. */
  lemma OnePageIsOrphan(scan: ActiveScan, id: SegmentId, segment: Segment)
    requires scan.segments == []
    ensures Orphan(scan, map[id := Ready(segment)]) == Some(segment)
  {
    var spool: Store := map[id := Ready(segment)];
    assert id in spool && !Referenced(scan, id);
  }

  lemma NoOrphanInEmptySpool(scan: ActiveScan)
    ensures Orphan(scan, map[]) == None
  {
  }

  // ---- the committed cursor covers the table --------------------------------------------------

  lemma LastRowCovers(source: seq<Row>, committed: Option<Cursor>)
    requires Sorted(source) && source != []
    ensures Through(source, Some(MaxCursor(source[|source| - 1].cursor, committed))) == |source|
  {
    ThroughRow(source, |source| - 1);
    CommittedPosition(source, source[|source| - 1].cursor, committed);
  }

  /** A scan that finds nothing more commits a cursor that covers the whole table. */
  lemma EmptyPageCovers(trace: seq<World>, w: World)
    requires Trace(trace, w) && Scanning(w) && EffectiveBound(NextRequest(w.store.value)).Ok?
    requires NextIndex(w.store.value, w.source) == |w.source|
    ensures Through(w.source, CommittedBy(w.store.value, ScanOf(w).maximumCandidate)) == |w.source|
  {
    var state, scan := w.store.value, ScanOf(w);
    SealedBeforeNext(trace, w);
    assert Sorted(w.source) && CursorsAgree(state, scan, w.source, |Dedup(w.log)|) by {
      TraceInv(trace, w);
    }
    if scan.resumeAfter.Some? {
      CommittedPosition(w.source, scan.resumeAfter.value, state.coordinator.committed);
    } else {
      LowAtMostCommitted(state, w.source);
    }
  }

  /** An idle input whose committed cursor covers the table has sent the table. */
  lemma CoveredIsSent(trace: seq<World>, w: World)
    requires Trace(trace, w) && w.store.Some? && w.store.value.scan.None?
    requires Through(w.source, w.store.value.coordinator.committed) == |w.source|
    ensures Dedup(w.log) == w.source
  {
    TraceInv(trace, w);
  }

  /** The page is what follows `from`, and it is the last one if no row is left after it. */
  lemma PageIs(source: seq<Row>, bound: Option<Bound>, committed: Option<Cursor>, maxRows: nat)
    requires Sorted(source) && maxRows >= 1
    ensures
      var from, page := Skip(source, bound), Collect(source, bound, committed, maxRows);
      && (page.rows == [] <==> from == |source|)
      && (page.rows == [] ==> page == Page([], false, None, None))
      && (page.truncated <==> from + maxRows < |source|)
      && (page.truncated ==> |page.rows| == maxRows)
      && (page.rows != [] && !page.truncated ==>
            source != [] && page.candidate == Some(MaxCursor(source[|source| - 1].cursor, committed)))
  {
    var from, page := Skip(source, bound), Collect(source, bound, committed, maxRows);
    if page.rows != [] && !page.truncated {
      assert page.rows[|page.rows| - 1] == source[|source| - 1];
    }
  }

  lemma SourceIsSorted(trace: seq<World>, w: World)
    requires Trace(trace, w)
    ensures Sorted(w.source)
  {
    TraceInv(trace, w);
  }

  // ---- one page, and the whole scan -----------------------------------------------------------

  /** What one round over a page leads to. */
  ghost predicate Progresses(c: Coordinator, candidates: seq<AttemptId>, from: nat, maxRows: nat, outcome: Reconciled)
    reads c
  {
    && c.state.Some? && c.spool == map[] && c.Traced() && Quiet(c.World())
    && if from + maxRows < |c.source| then
         && outcome.NeedsCollection? && Between(c, candidates)
         && Ensured(c.World()) == c.state.value && NextIndex(c.state.value, c.source) == from + maxRows
       else
         && outcome.Finished? && c.state.value.scan.None?
         && Through(c.source, c.state.value.coordinator.committed) == |c.source|
  }

  /** The end of a scan on an empty page. */
  method FinishEmpty(c: Coordinator, context: PageContext, page: Page) returns (outcome: Reconciled)
    requires c.Traced() && FaultFree(c) && c.worker == Collected(context, page) && c.spool == map[]
    requires page == Page([], false, None, None)
    requires Scanning(c.World()) && Asking(c.state.value)
    requires NextIndex(c.state.value, c.source) == |c.source|
    modifies c
    ensures c.Traced() && Quiet(c.World()) && c.source == old(c.source) && c.spool == map[]
    ensures outcome.Finished? && c.state.Some? && c.state.value.scan.None?
    ensures Through(c.source, c.state.value.coordinator.committed) == |c.source|
  {
    ghost var was := c.World();
    AssignedWantsPage(c.trace, was);
    EmptyPageCovers(c.trace, was);
    var recorded := c.RecordEmptyCompletion(context, page);
    NoOrphanInEmptySpool(c.state.value.scan.value);
    var reconciled := c.Reconcile();
    return reconciled.value;
  }

  /** What a page does to the requests of a scan. */
  lemma PageMovesOn(state: InputState, next: InputState, source: seq<Row>, maxRows: nat)
    requires Sorted(source) && maxRows >= 1 && EffectiveBound(NextRequest(state)).Ok?
    requires
      var request := NextRequest(state);
      var page := Collect(source, EffectiveBound(request).value, request.committed, maxRows);
      && page.rows != []
      && NextRequest(next) == request.(resumeAfter := page.resume)
    ensures EffectiveBound(NextRequest(next)).Ok?
    ensures
      var request := NextRequest(state);
      var page := Collect(source, EffectiveBound(request).value, request.committed, maxRows);
      NextIndex(next, source) == NextIndex(state, source) + |page.rows|
  {
    var request := NextRequest(state);
    var bound := EffectiveBound(request).value;
    var page := Collect(source, bound, request.committed, maxRows);
    ResumeSkips(source, bound, request.committed, maxRows);
    ResumeStaysValid(request, page.resume.value);
  }

  /** A sealed page fits the counters of a scan over a table of fewer than 2^64 - 1 rows. */
  lemma PageHasRoom(trace: seq<World>, w: World, page: Segment)
    requires Trace(trace, w) && Scanning(w) && Asking(w.store.value) && |w.source| < MAX_U64
    requires page.events != [] && NextIndex(w.store.value, w.source) + |page.events| <= |w.source|
    ensures HasRoom(w.store.value, ScanOf(w), Some(page))
  {
    SealedBeforeNext(trace, w);
    PagesHaveRows(trace, w);
  }

  /** The next page is sealed and reconciled. */
  method SealAndSettle(c: Coordinator, context: PageContext, page: Page) returns (outcome: Reconciled)
    requires c.Traced() && FaultFree(c) && c.worker == Collected(context, page) && c.spool == map[]
    requires Scanning(c.World()) && Asking(c.state.value) && |c.source| < MAX_U64
    requires page.rows != [] && NextIndex(c.state.value, c.source) + |page.rows| <= |c.source|
    modifies c
    ensures c.Traced() && Quiet(c.World()) && c.spool == map[]
    ensures c.source == old(c.source) && c.prepared == old(c.prepared)
    ensures ReportsScan(old(c.state).value, Some(Sealed([], context, page)), c.state, outcome)
  {
    ghost var was := c.World();
    AssignedWantsPage(c.trace, was);
    var sealed := c.SealPage(context, page, []);
    OnePageIsOrphan(ScanOf(was), [], sealed.value);
    PageHasRoom(c.trace, c.World(), sealed.value);
    var reconciled := c.Reconcile();
    return reconciled.value;
  }

  /** After a page that is not the last the scan asks for the one behind it. */
  lemma NextPageIsAsked(trace: seq<World>, w: World, state: InputState, segment: Segment, maxRows: nat, outcome: Reconciled)
    requires Trace(trace, w) && Quiet(w) && state.scan.Some? && Asking(state)
    requires ReportsScan(state, Some(segment), w.store, outcome)
    requires state.identity == w.prepared.identity && state.revision == w.prepared.revision && !state.scan.value.complete
    requires maxRows >= 1 && segment.metadata.truncated && segment.events != []
    requires
      var request := NextRequest(state);
      var page := Collect(w.source, EffectiveBound(request).value, request.committed, maxRows);
      page.rows == segment.events && page.resume == segment.metadata.resume
    ensures outcome.NeedsCollection? && Ensurable(w) && Ensured(w) == w.store.value && Asking(w.store.value)
    ensures w.store.value.scan.Some?
    ensures NextIndex(w.store.value, w.source) == NextIndex(state, w.source) + |segment.events|
  {
    ScanMeansActive(trace, w);
    IncompleteWantsPage(trace, w);
    SourceIsSorted(trace, w);
    PageMovesOn(state, w.store.value, w.source, maxRows);
  }

  /** The next page is sealed, and reconciled into the scan or into the commit. */
  method SealAndReconcile(c: Coordinator, context: PageContext, page: Page, candidates: seq<AttemptId>, maxRows: nat)
    returns (outcome: Reconciled)
    requires c.Traced() && FaultFree(c) && c.worker == Collected(context, page) && c.spool == map[]
    requires Scanning(c.World()) && Asking(c.state.value) && |c.source| < MAX_U64 && maxRows >= 1
    requires page.rows != []
    requires
      var request := NextRequest(c.state.value);
      page == Collect(c.source, EffectiveBound(request).value, request.committed, maxRows)
    modifies c
    ensures c.source == old(c.source)
    ensures Progresses(c, candidates, NextIndex(old(c.state).value, old(c.source)), maxRows, outcome)
  {
    ghost var state, request := c.state.value, NextRequest(c.state.value);
    SourceIsSorted(c.trace, c.World());
    PageIs(c.source, EffectiveBound(request).value, request.committed, maxRows);
    outcome := SealAndSettle(c, context, page);
    if page.truncated {
      NextPageIsAsked(c.trace, c.World(), state, Sealed([], context, page), maxRows, outcome);
    } else {
      LastRowCovers(c.source, state.coordinator.committed);
    }
  }

  /** Ask for a page, collect it, seal it or record the end, and reconcile. */
  method Round(c: Coordinator, candidates: seq<AttemptId>, maxRows: nat) returns (outcome: Reconciled)
    requires Between(c, candidates) && FaultFree(c) && maxRows >= 1
    modifies c
    ensures c.source == old(c.source)
    ensures Progresses(c, candidates, NextIndex(Ensured(old(c.World())), old(c.source)), maxRows, outcome)
  {
    ghost var ensured := Ensured(c.World());
    var asked := c.StartOrResumePage(candidates);
    BeginsAsking(ensured, c.state.value, candidates);
    var context := asked.value.value;
    var page := c.CollectPage(context, maxRows);
    SourceIsSorted(c.trace, c.World());
    PageIs(c.source, EffectiveBound(context.request).value, context.request.committed, maxRows);
    if page.rows == [] {
      outcome := FinishEmpty(c, context, page);
    } else {
      outcome := SealAndReconcile(c, context, page, candidates, maxRows);
    }
  }

  /**
   A scan comes to its end: over a fixed table, without faults and with room in the counters, asking,
   collecting, sealing and reconciling page by page ends in a commit. The committed cursor then
   covers the table, and the sink, repeats dropped, holds exactly the table.
   */
  method RunScan(c: Coordinator, candidates: seq<AttemptId>, maxRows: nat) returns (outcome: Reconciled)
    requires Between(c, candidates) && FaultFree(c) && maxRows >= 1
    modifies c
    ensures c.Traced() && Quiet(c.World()) && c.source == old(c.source) && c.spool == map[]
    ensures outcome.Finished? && c.state.Some? && c.state.value.scan.None?
    ensures Through(c.source, c.state.value.coordinator.committed) == |c.source|
    ensures Dedup(c.log) == c.source
  {
    ghost var from := NextIndex(Ensured(c.World()), c.source);
    outcome := Round(c, candidates, maxRows);
    while outcome.NeedsCollection?
      invariant c.source == old(c.source)
      invariant Progresses(c, candidates, from, maxRows, outcome)
      decreases |c.source| - from
    {
      from := from + maxRows;
      outcome := Round(c, candidates, maxRows);
    }
    CoveredIsSent(c.trace, c.World());
  }

  // ---- from any point of any run --------------------------------------------------------------

  /** Two different ids: one of them differs from the attempt committed last, whichever that is. */
  predicate Various(candidates: seq<AttemptId>) {
    exists i, j :: 0 <= i < j < |candidates| && candidates[i] != candidates[j]
  }

  lemma VariousCanOpen(state: InputState, candidates: seq<AttemptId>)
    requires Various(candidates)
    ensures CanOpen(state, candidates)
  {
    var i, j :| 0 <= i < j < |candidates| && candidates[i] != candidates[j];
    assert Differs(state.coordinator.last, candidates[i]) || Differs(state.coordinator.last, candidates[j]);
  }

  /** Two commits are left: one for the scan that was open, one for the next. */
  predicate GenerationsAhead(w: World) {
    w.store.Some? ==> w.store.value.coordinator.generation < MAX_U64 - 1
  }

  /** The stored input is the configured one, and it runs the configured revision or can change to it. */
  predicate OfConfigured(w: World) {
    w.store.Some? ==>
      var state := w.store.value;
      && state.identity == w.prepared.identity
      && (state.revision != w.prepared.revision ==> state.scan.None? && state.configurationGeneration < MAX_U64)
  }

  /** Pages of a table of fewer than 2^64 - 1 rows always fit the counters of a scan. */
  lemma TableFits(trace: seq<World>, w: World)
    requires Trace(trace, w) && |w.source| < MAX_U64 && w.store.Some? && w.store.value.scan.Some?
    ensures Adoptable(ScanIn(w), Orphan(ScanIn(w), w.spool))
  {
    TraceInv(trace, w);
    PagesHaveRows(trace, w);
    var state, scan := w.store.value, ScanIn(w);
    if Orphan(scan, w.spool).Some? {
      var id :| id in w.spool && !Referenced(scan, id) && Orphan(scan, w.spool) == Some(w.spool[id].segment);
      assert NextPage(state, scan, w.spool[id], w.source, Frontier(state, scan, w.source));
    }
  }

  function ScanIn(w: World): ActiveScan
    requires w.store.Some? && w.store.value.scan.Some?
  {
    w.store.value.scan.value
  }

  /** So only the configuration and the two generations decide whether a reconciliation can succeed. */
  lemma RoomExactlyWhen(trace: seq<World>, w: World)
    requires Trace(trace, w) && |w.source| < MAX_U64 && GenerationsAhead(w)
    ensures Room(w) <==> OfConfigured(w)
  {
    if w.store.Some? && w.store.value.scan.Some? {
      TableFits(trace, w);
    }
  }

  /** A successful reconciliation leaves an input whose next page can be asked for. */
  lemma ReconciledIsBetween(trace: seq<World>, was: World, w: World, outcome: Reconciled)
    requires Trace(trace, w) && Quiet(w) && w.spool == map[] && w.prepared == was.prepared
    requires Room(was) && Reports(was, w.store, outcome) && GenerationsAhead(was)
    requires Configurable(w.prepared) && InCalendar(w.source)
    ensures Ensurable(w) && Asking(Ensured(w))
  {
    ScanMeansActive(trace, w);
    if w.store.Some? && w.store.value.scan.Some? {
      IncompleteWantsPage(trace, w);
    }
    ConfiguredBoundExists(trace, w);
  }

  /**
   Recovery and completion together: from any point of any run, unless an open scan is of another
   configuration or a generation is exhausted, one fault-free reconciliation and the scan that follows
   commit and send the whole table.
   */
  method RecoverAndScan(crashed: World, ghost trace: seq<World>, candidates: seq<AttemptId>, maxRows: nat)
    returns (next: World, outcome: Reconciled)
    requires Trace(trace, crashed) && OfConfigured(crashed) && GenerationsAhead(crashed)
    requires Configurable(crashed.prepared) && InCalendar(crashed.source) && |crashed.source| < MAX_U64
    requires Various(candidates) && maxRows >= 1
    ensures Reachable(next) && Quiet(next) && next.source == crashed.source && next.spool == map[]
    ensures outcome.Finished? && next.store.Some? && next.store.value.scan.None?
    ensures Through(next.source, CommittedCursor(next)) == |next.source|
    ensures Dedup(next.log) == next.source
  {
    TraceStep(trace, crashed, Crash);
    var restarted := crashed.(worker := Idle, sending := None);
    var c := new Coordinator.Resume(restarted, trace + [restarted], _ => NoFault);
    RoomExactlyWhen(c.trace, restarted);
    var reconciled := c.Reconcile();
    ReconciledIsBetween(c.trace, restarted, c.World(), reconciled.value);
    VariousCanOpen(Ensured(c.World()), candidates);
    outcome := RunScan(c, candidates, maxRows);
    next := c.World();
    assert Trace(c.trace, next);
  }
}
