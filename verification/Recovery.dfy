/** What a reconciliation still has to send, when it can finish, and why each of its steps is allowed. */
module Recovery {
  import opened Wrappers
  import opened Cursors
  import opened Identity
  import opened Source
  import opened Spool
  import opened C = Checkpoint
  import opened DurableState
  import opened Rising
  import opened Protocol
  import opened Invariant
  import opened InvariantSteps
  import opened Safety
  import opened Acceptance
  import opened Inventory

  /** A durable effect happened or not, and the caller may have crashed before or after it. */
  lemma TookOrCrashed(trace: seq<World>, w: World, next: World, a: Action) returns (longer: seq<World>)
    requires Trace(trace, w) && Enabled(w, a)
    requires next == w || next == Effect(w, a) || next == Effect(w, Crash) || next == Effect(Effect(w, a), Crash)
    ensures Trace(longer, next) && trace <= longer
  {
    longer := trace;
    if next == Effect(w, a) || next == Effect(Effect(w, a), Crash) {
      TraceStep(trace, w, a);
      longer := trace + [Effect(w, a)];
      if next != Effect(w, a) {
        TraceStep(longer, Effect(w, a), Crash);
        longer := longer + [next];
      }
    } else if next == Effect(w, Crash) {
      TraceStep(trace, w, Crash);
      longer := trace + [next];
    }
  }

  /** The store accepts each write the protocol makes in a reachable world. */
  lemma WriteAccepted(trace: seq<World>, w: World, a: Action)
    requires Trace(trace, w) && Enabled(w, a) && IsCompareExchange(a)
    ensures w.store.Some? && Effect(w, a).store.Some?
    ensures StoreAccepts(w.store.value, Effect(w, a).store.value)
  {
    TraceInv(trace, w);
    CompareExchangeAccepted(w, a);
  }

  /** The scan a reconciliation works on, with no worker and no delivery under way. */
  ghost predicate Resting(trace: seq<World>, w: World) {
    Trace(trace, w) && Quiet(w) && Scanning(w)
  }

  function ScanOf(w: World): ActiveScan
    requires Scanning(w)
  {
    w.store.value.scan.value
  }

  // ---- what is left to send -------------------------------------------------------------------

  /** The sealed page that no reference names. */
  ghost function Orphan(scan: ActiveScan, spool: Store): Option<Segment> {
    if exists id :: id in spool && !Referenced(scan, id) then
      var id :| id in spool && !Referenced(scan, id);
      Some(spool[id].segment)
    else None
  }

  lemma PlannedOrphanIsOrphan(scan: ActiveScan, spool: Store, orphan: Option<Segment>)
    requires PlansOrphan(scan, spool, orphan)
    ensures Orphan(scan, spool) == orphan
  {
  }

  /** The events of the referenced segments that are still ready, in page order. */
  function Unsent(segments: seq<SegmentRef>, spool: Store): seq<Row> {
    if segments == [] then [] else UnsentOf(segments[0].segmentId, spool) + Unsent(segments[1..], spool)
  }

  function UnsentOf(id: SegmentId, spool: Store): seq<Row> {
    if id in spool && spool[id].Ready? then spool[id].segment.events else []
  }

  function EventsOf(segment: Option<Segment>): seq<Row> {
    if segment.Some? then segment.value.events else []
  }

  /** Every event of a ready segment, and none of a delivered one. */
  ghost function Outstanding(w: World): seq<Row> {
    if Scanning(w) then Unsent(ScanOf(w).segments, w.spool) + EventsOf(Orphan(ScanOf(w), w.spool)) else []
  }

  /** The counters have room for the page to adopt and for the commit. */
  ghost predicate HasRoom(state: InputState, scan: ActiveScan, orphan: Option<Segment>) {
    && Adoptable(scan, orphan)
    && (scan.complete || (orphan.Some? && !orphan.value.metadata.truncated) ==> state.coordinator.generation < MAX_U64)
  }

  /**
   When a reconciliation without faults succeeds: the stored input is the configured one, an open scan
   belongs to the configured revision, and the counters have room.
   */
  ghost predicate Room(w: World) {
    w.store.Some? ==>
      var state := w.store.value;
      && state.identity == w.prepared.identity
      && if state.revision != w.prepared.revision then
           state.scan.None? && state.configurationGeneration < MAX_U64
         else
           state.scan.Some? ==> HasRoom(state, state.scan.value, Orphan(state.scan.value, w.spool))
  }

  lemma {:induction false} UnsentSame(segments: seq<SegmentRef>, spool: Store, other: Store)
    requires forall i :: 0 <= i < |segments| ==> UnsentOf(segments[i].segmentId, spool) == UnsentOf(segments[i].segmentId, other)
    ensures Unsent(segments, spool) == Unsent(segments, other)
  {
    if segments != [] {
      UnsentSame(segments[1..], spool, other);
    }
  }

  lemma {:induction false} UnsentAppend(a: seq<SegmentRef>, b: seq<SegmentRef>, spool: Store)
    ensures Unsent(a + b, spool) == Unsent(a, spool) + Unsent(b, spool)
  {
    if a == [] {
      assert a + b == b;
    } else {
      var head := UnsentOf(a[0].segmentId, spool);
      assert Unsent(a + b, spool) == head + Unsent(a[1..] + b, spool) by {
        assert (a + b)[1..] == a[1..] + b;
      }
      UnsentAppend(a[1..], b, spool);
      ConcatIsAssociative(head, Unsent(a[1..], spool), Unsent(b, spool));
    }
  }

  lemma {:induction false} UnsentNone(segments: seq<SegmentRef>, spool: Store)
    requires forall i :: 0 <= i < |segments| ==> segments[i].segmentId !in spool
    ensures Unsent(segments, spool) == []
  {
    if segments != [] {
      UnsentNone(segments[1..], spool);
    }
  }

  // ---- compacting what already has a receipt --------------------------------------------------

  function Without(spool: Store, segments: seq<Segment>): Store {
    map id | id in spool && !HasId(segments, id) :: spool[id]
  }

  lemma WithoutNone(spool: Store)
    ensures Without(spool, []) == spool
  {
  }

  lemma WithoutMore(spool: Store, segments: seq<Segment>, k: nat)
    requires k < |segments|
    ensures Without(spool, segments[..k + 1]) == Without(spool, segments[..k]) - {segments[k].id}
  {
    assert segments[..k + 1] == segments[..k] + [segments[k]];
    forall id | id in spool
      ensures HasId(segments[..k + 1], id) <==> HasId(segments[..k], id) || segments[k].id == id
    {
      HasIdMore(segments[..k], segments[k], id);
    }
  }

  lemma CompactPlanned(w: World, spool: Store, receipted: seq<Segment>, k: nat)
    requires Quiet(w) && Scanning(w)
    requires PlansReceipted(ScanOf(w), spool, |ScanOf(w).segments|, receipted)
    requires k < |receipted| && w.spool == Without(spool, receipted[..k])
    ensures receipted[k].id in w.spool && w.spool[receipted[k].id] == Delivered(receipted[k])
    ensures Enabled(w, Compact(receipted[k].id))
  {
    assert !HasId(receipted[..k], receipted[k].id);
    assert ReceiptedId(ScanOf(w), |ScanOf(w).segments|, receipted[k].id);
  }

  /** No reference with a receipt keeps a copy. */
  ghost predicate ReceiptedAreGone(scan: ActiveScan, spool: Store) {
    forall i :: 0 <= i < |scan.segments| && Receipted(scan, i) ==> scan.segments[i].segmentId !in spool
  }

  lemma CompactedAreGone(scan: ActiveScan, spool: Store, receipted: seq<Segment>)
    requires PlansReceipted(scan, spool, |scan.segments|, receipted)
    ensures ReceiptedAreGone(scan, Without(spool, receipted))
  {
    forall i | 0 <= i < |scan.segments| && Receipted(scan, i)
      ensures scan.segments[i].segmentId !in Without(spool, receipted)
    {
      if scan.segments[i].segmentId in spool {
        assert ReceiptedId(scan, |scan.segments|, scan.segments[i].segmentId);
      }
    }
  }

  /** Compacting the receipted copies leaves every other copy and the orphan where they were. */
  lemma CompactionKeepsPlan(scan: ActiveScan, spool: Store, receipted: seq<Segment>, pending: map<U64, Located>, orphan: Option<Segment>)
    requires CanonicalSegments(scan)
    requires PlansReceipted(scan, spool, |scan.segments|, receipted)
    requires PlansPending(scan, spool, |scan.segments|, pending) && PlansOrphan(scan, spool, orphan)
    ensures PlansPending(scan, Without(spool, receipted), |scan.segments|, pending)
    ensures PlansOrphan(scan, Without(spool, receipted), orphan)
    ensures Unsent(scan.segments, Without(spool, receipted)) == Unsent(scan.segments, spool)
  {
    forall id | id in spool && HasId(receipted, id)
      ensures spool[id].Delivered? && ReceiptedId(scan, |scan.segments|, id)
    {
      var k :| 0 <= k < |receipted| && receipted[k].id == id;
      assert receipted[k].id in spool;
    }
    forall id | id in spool && !Referenced(scan, id)
      ensures !HasId(receipted, id)
    {
    }
    UnsentSame(scan.segments, spool, Without(spool, receipted));
  }

  // ---- pruning --------------------------------------------------------------------------------

  lemma ScanIsValid(trace: seq<World>, w: World)
    requires Resting(trace, w)
    ensures ValidState(w.store.value) && ValidScan(ScanOf(w), w.store.value.coordinator)
    ensures 0 <= NextPending(ScanOf(w)) <= |ScanOf(w).segments|
    ensures w.store.value.identity == w.prepared.identity
  {
    TraceInv(trace, w);
  }

  lemma ReceiptedIsPrefix(scan: ActiveScan, s: Snapshot)
    requires ValidScan(scan, s)
    ensures 0 <= NextPending(scan) <= |scan.segments|
    ensures forall i :: 0 <= i < |scan.segments| ==> (Receipted(scan, i) <==> i < NextPending(scan))
  {
  }

  lemma PruneAllowed(trace: seq<World>, w: World)
    requires Resting(trace, w) && ReceiptedAreGone(ScanOf(w), w.spool)
    requires 0 < Removable(ScanOf(w).segments, ScanOf(w).deliveredThrough)
    ensures Enabled(w, Prune)
  {
    ScanIsValid(trace, w);
    PrunedScanIs(ScanOf(w), w.store.value.coordinator);
    ReceiptedIsPrefix(ScanOf(w), w.store.value.coordinator);
  }

  /** Everything in front of the scan is done: what is retained is pending or to be adopted. */
  ghost predicate Drains(scan: ActiveScan, spool: Store, pending: map<U64, Located>, orphan: Option<Segment>) {
    && NextPending(scan) == 0
    && PlansPending(scan, spool, |scan.segments|, pending)
    && PlansOrphan(scan, spool, orphan)
  }

  lemma PruneLeavesUnsent(scan: ActiveScan, s: Snapshot, spool: Store)
    requires ValidScan(scan, s) && ReceiptedAreGone(scan, spool)
    ensures PrunedScan(scan).Ok?
    ensures Unsent(PrunedScan(scan).value.segments, spool) == Unsent(scan.segments, spool)
  {
    PrunedScanIs(scan, s);
    ReceiptedIsPrefix(scan, s);
    var n := NextPending(scan);
    UnsentNone(scan.segments[..n], spool);
    UnsentAppend(scan.segments[..n], scan.segments[n..], spool);
    assert scan.segments == scan.segments[..n] + scan.segments[n..];
  }

  lemma PruneLeavesPending(scan: ActiveScan, s: Snapshot, spool: Store, pending: map<U64, Located>)
    requires ValidScan(scan, s) && PlansPending(scan, spool, |scan.segments|, pending)
    ensures PrunedScan(scan).Ok?
    ensures PlansPending(PrunedScan(scan).value, spool, |PrunedScan(scan).value.segments|, pending)
  {
    PrunedScanIs(scan, s);
    ReceiptedIsPrefix(scan, s);
    var pruned, n := PrunedScan(scan).value, NextPending(scan);
    forall i | 0 <= i < |pruned.segments|
      ensures
        && pruned.segments[i].segmentId in spool && pruned.segments[i].sequence in pending
        && pending[pruned.segments[i].sequence] == spool[pruned.segments[i].segmentId]
    {
      assert pruned.segments[i] == scan.segments[n + i];
      assert !Receipted(scan, n + i);
    }
  }

  lemma PruneLeavesPlan(scan: ActiveScan, s: Snapshot, spool: Store, pending: map<U64, Located>, orphan: Option<Segment>)
    requires ValidScan(scan, s) && ReceiptedAreGone(scan, spool)
    requires PlansPending(scan, spool, |scan.segments|, pending) && PlansOrphan(scan, spool, orphan)
    ensures PrunedScan(scan).Ok? && Drains(PrunedScan(scan).value, spool, pending, orphan)
  {
    PruneLeavesPending(scan, s, spool, pending);
    PrunedScanIs(scan, s);
    ReceiptedIsPrefix(scan, s);
    forall id | id in spool
      ensures Referenced(PrunedScan(scan).value, id) <==> Referenced(scan, id)
    {
      PrunedKeepsReferenced(scan, s, spool, id);
    }
  }

  // ---- adopting the page that a crash left without a reference --------------------------------

  /** What the invariant says about a page to adopt, once the front of the scan is pruned. */
  ghost predicate Awaits(state: InputState, scan: ActiveScan, orphan: Segment) {
    && ValidState(state) && state.scan == Some(scan)
    && InFence(state, orphan)
    && orphan.metadata.request == FingerprintOf(RequestOf(state, scan))
    && !scan.complete
    && scan.segments == []
    && orphan.header.segmentSequence == scan.nextPage
    && orphan.metadata.candidate.Some?
    && (state.coordinator.committed.Some? ==>
          PositionCmp(orphan.metadata.candidate.value, state.coordinator.committed.value) != Less)
    && !state.coordinator.active.value.collection.Failed?
  }

  lemma OrphanAwaits(trace: seq<World>, w: World, orphan: Segment)
    requires Resting(trace, w) && NextPending(ScanOf(w)) == 0 && PlansOrphan(ScanOf(w), w.spool, Some(orphan))
    ensures Awaits(w.store.value, ScanOf(w), orphan)
  {
    TraceInv(trace, w);
    var state, scan := w.store.value, ScanOf(w);
    assert NextPage(state, scan, w.spool[orphan.id], w.source, Frontier(state, scan, w.source));
  }

  /** The page can be adopted exactly when the counters have room for it. */
  lemma AdoptionNeedsRoom(state: InputState, scan: ActiveScan, orphan: Segment)
    requires Awaits(state, scan, orphan)
    ensures AdoptOrphan(state, orphan).Ok? <==>
              scan.nextPage < MAX_U64 && SealedRows(scan) + |orphan.events| <= MAX_U64
    ensures AdoptOrphan(state, orphan).Ok? ==>
              && SegmentCount(scan) < MAX_U64
              && AdoptOrphan(state, orphan).value.scan == Some(AdoptedScan(scan, orphan))
              && AdoptOrphan(state, orphan).value.coordinator.generation == state.coordinator.generation
              && AdoptOrphan(state, orphan).value.revision == state.revision
              && AdoptOrphan(state, orphan).value.coordinator.active.Some?
  {
    if SegmentCount(scan) < MAX_U64 && scan.nextPage < MAX_U64 {
      AdoptedRows(scan, orphan);
    }
  }

  lemma AdoptAllowed(trace: seq<World>, w: World, orphan: Segment)
    requires Resting(trace, w) && PlansOrphan(ScanOf(w), w.spool, Some(orphan))
    requires AdoptOrphan(w.store.value, orphan).Ok?
    ensures Enabled(w, Adopt(orphan.id))
    ensures Effect(w, Adopt(orphan.id)) == w.(store := Some(AdoptOrphan(w.store.value, orphan).value))
  {
  }

  lemma AdoptLeavesPlan(scan: ActiveScan, spool: Store, pending: map<U64, Located>, orphan: Segment)
    requires SegmentCount(scan) < MAX_U64 && scan.nextPage < MAX_U64
    requires CanonicalSegments(scan) && Drains(scan, spool, pending, Some(orphan))
    ensures
      var adopted := AdoptedScan(scan, orphan);
      && SegmentCount(adopted) <= MAX_U64
      && Drains(adopted, spool, pending[SegmentCount(adopted) := Ready(orphan)], None)
  {
    var adopted := AdoptedScan(scan, orphan);
    forall id | id in spool
      ensures Referenced(adopted, id)
    {
      AdoptedReferences(scan, orphan, id);
    }
  }

  lemma AdoptLeavesUnsent(scan: ActiveScan, spool: Store, orphan: Segment)
    requires SegmentCount(scan) < MAX_U64 && scan.nextPage < MAX_U64
    requires orphan.id in spool && spool[orphan.id] == Ready(orphan)
    ensures Unsent(AdoptedScan(scan, orphan).segments, spool) == Unsent(scan.segments, spool) + orphan.events
  {
    var adopted := AdoptedScan(scan, orphan);
    var added := adopted.segments[|scan.segments|..];
    assert added[1..] == [];
    assert Unsent(added, spool) == orphan.events + Unsent(added[1..], spool);
    UnsentAppend(scan.segments, added, spool);
    assert adopted.segments == scan.segments + added;
  }

  // ---- delivering, receipting and compacting the first pending segment ------------------------

  lemma FirstPending(trace: seq<World>, w: World, pending: map<U64, Located>)
    requires Resting(trace, w) && Drains(ScanOf(w), w.spool, pending, None) && ScanOf(w).segments != []
    ensures HasPending(ScanOf(w)) && PendingId(ScanOf(w)) == ScanOf(w).segments[0].segmentId
    ensures ScanOf(w).deliveredThrough < MAX_U64
    ensures ScanOf(w).segments[0].sequence == ScanOf(w).deliveredThrough + 1
    ensures ScanOf(w).deliveredThrough + 1 in pending && PendingId(ScanOf(w)) in w.spool
    ensures pending[ScanOf(w).deliveredThrough + 1] == w.spool[PendingId(ScanOf(w))]
    ensures w.spool[PendingId(ScanOf(w))].segment.id == PendingId(ScanOf(w))
  {
    ScanIsValid(trace, w);
    assert w.spool[ScanOf(w).segments[0].segmentId].segment.id == ScanOf(w).segments[0].segmentId by {
      TraceInv(trace, w);
    }
    assert !Receipted(ScanOf(w), 0);
  }

  /** The scan after a receipt for its first reference. */
  function ReceiptedScan(scan: ActiveScan): ActiveScan
    requires scan.deliveredThrough < MAX_U64
  {
    scan.(deliveredThrough := scan.deliveredThrough + 1)
  }

  lemma RoundLeavesPlan(scan: ActiveScan, spool: Store, pending: map<U64, Located>, marked: Store)
    requires CanonicalSegments(scan) && Drains(scan, spool, pending, None) && scan.segments != []
    requires scan.deliveredThrough < MAX_U64
    requires scan.segments[0].segmentId in spool
    requires marked == spool || marked == spool[scan.segments[0].segmentId := Delivered(spool[scan.segments[0].segmentId].segment)]
    ensures
      var done, left := ReceiptedScan(scan), marked - {scan.segments[0].segmentId};
      && ReceiptedAreGone(done, left)
      && PlansPending(done, left, |done.segments|, pending - {scan.deliveredThrough + 1})
      && PlansOrphan(done, left, None)
  {
    var done, left := ReceiptedScan(scan), marked - {scan.segments[0].segmentId};
    assert forall i :: 0 <= i < |scan.segments| ==> (Receipted(done, i) <==> i == 0);
    assert forall i :: 0 < i < |scan.segments| ==> !Receipted(scan, i);
    forall id | id in left
      ensures Referenced(done, id)
    {
      assert Referenced(scan, id);
    }
  }

  lemma RoundLeavesUnsent(scan: ActiveScan, spool: Store, marked: Store)
    requires CanonicalSegments(scan) && scan.segments != [] && scan.segments[0].segmentId in spool
    requires marked == spool || marked == spool[scan.segments[0].segmentId := Delivered(spool[scan.segments[0].segmentId].segment)]
    ensures Unsent(scan.segments[1..], spool) == Unsent(scan.segments[1..], marked - {scan.segments[0].segmentId})
  {
    UnsentSame(scan.segments[1..], spool, marked - {scan.segments[0].segmentId});
  }

  lemma ReceiptAllowed(w: World)
    requires Quiet(w) && Scanning(w) && HasPending(ScanOf(w)) && ScanOf(w).deliveredThrough < MAX_U64
    requires PendingId(ScanOf(w)) in w.spool && w.spool[PendingId(ScanOf(w))].Delivered?
    ensures Enabled(w, Receipt)
    ensures WithReceipt(w.store.value) == w.store.value.(scan := Some(ReceiptedScan(ScanOf(w))))
    ensures Effect(w, Receipt) == w.(store := Some(WithReceipt(w.store.value)), worker := Idle)
  {
  }

  lemma CompactFirstAllowed(w: World, id: SegmentId)
    requires Quiet(w) && Scanning(w) && ScanOf(w).segments != []
    requires ScanOf(w).segments[0].segmentId == id && Receipted(ScanOf(w), 0)
    requires id in w.spool && w.spool[id].Delivered?
    ensures Enabled(w, Compact(id))
  {
  }

  /** Receipts and pruning touch only the references and the counters about them. */
  predicate Settles(scan: ActiveScan, rest: ActiveScan) {
    && rest == scan.(
         compactedThrough := rest.compactedThrough, compactedRows := rest.compactedRows,
         segments := rest.segments, deliveredThrough := rest.deliveredThrough)
    && SegmentCount(rest) == SegmentCount(scan) && SealedRows(rest) == SealedRows(scan)
  }

  /** What one round of the delivery loop makes of the scan. */
  predicate Rounds(scan: ActiveScan, rest: ActiveScan) {
    && scan.segments != []
    && rest.segments == scan.segments[1..]
    && Settles(scan, rest)
  }

  /** Pruning after one receipt drops the first reference and nothing else. */
  lemma RoundDropsFirst(scan: ActiveScan, s: Snapshot)
    requires scan.deliveredThrough < MAX_U64 && ValidScan(ReceiptedScan(scan), s)
    requires NextPending(scan) == 0 && scan.segments != []
    ensures PrunedScan(ReceiptedScan(scan)).Ok? && Rounds(scan, PrunedScan(ReceiptedScan(scan)).value)
  {
    PrunedScanIs(ReceiptedScan(scan), s);
  }

  lemma ReceiptKeepsValid(scan: ActiveScan, s: Snapshot)
    requires ValidScan(scan, s) && HasPending(scan) && scan.deliveredThrough < MAX_U64
    ensures ValidScan(ReceiptedScan(scan), s)
  {
  }

  /** What the first delivery of a round does to the spool. */
  predicate Marks(scan: ActiveScan, spool: Store, marked: Store) {
    && scan.segments != []
    && var id := scan.segments[0].segmentId;
    && id in spool
    && (marked == spool || marked == spool[id := Delivered(spool[id].segment)])
  }

  lemma RoundAllowed(trace: seq<World>, w: World, pending: map<U64, Located>, marked: Store)
    requires Resting(trace, w) && ScanOf(w).deliveredThrough < MAX_U64
    requires Drains(ScanOf(w), w.spool, pending, None) && Marks(ScanOf(w), w.spool, marked)
    ensures ReceiptedAreGone(ReceiptedScan(ScanOf(w)), marked - {ScanOf(w).segments[0].segmentId})
  {
    ScanIsValid(trace, w);
    RoundLeavesPlan(ScanOf(w), w.spool, pending, marked);
  }

  ghost predicate RoundDone(scan: ActiveScan, spool: Store, pending: map<U64, Located>, marked: Store)
    requires scan.deliveredThrough < MAX_U64 && Marks(scan, spool, marked)
  {
    && PrunedScan(ReceiptedScan(scan)).Ok?
    && var rest, left := PrunedScan(ReceiptedScan(scan)).value, marked - {scan.segments[0].segmentId};
    && Rounds(scan, rest)
    && Drains(rest, left, pending - {scan.deliveredThrough + 1}, None)
    && Unsent(scan.segments[1..], spool) == Unsent(rest.segments, left)
  }

  lemma RoundDrains(scan: ActiveScan, s: Snapshot, spool: Store, pending: map<U64, Located>, marked: Store)
    requires ValidScan(scan, s) && scan.deliveredThrough < MAX_U64 && HasPending(scan)
    requires Drains(scan, spool, pending, None) && Marks(scan, spool, marked)
    ensures RoundDone(scan, spool, pending, marked)
  {
    ReceiptKeepsValid(scan, s);
    RoundDropsFirst(scan, s);
    RoundLeavesPlan(scan, spool, pending, marked);
    PruneLeavesPlan(
      ReceiptedScan(scan), s, marked - {scan.segments[0].segmentId}, pending - {scan.deliveredThrough + 1}, None);
    RoundLeavesUnsent(scan, spool, marked);
  }

  /** After a round the rest of the plan still stands, and what is left to send is the rest. */
  lemma RoundEnds(trace: seq<World>, w: World, pending: map<U64, Located>, marked: Store)
    requires Resting(trace, w) && ScanOf(w).deliveredThrough < MAX_U64
    requires Drains(ScanOf(w), w.spool, pending, None) && Marks(ScanOf(w), w.spool, marked)
    ensures RoundDone(ScanOf(w), w.spool, pending, marked)
  {
    assert ValidScan(ScanOf(w), w.store.value.coordinator) && HasPending(ScanOf(w)) by {
      ScanIsValid(trace, w);
    }
    RoundDrains(ScanOf(w), w.store.value.coordinator, w.spool, pending, marked);
  }

  lemma NothingLeft(trace: seq<World>, w: World, pending: map<U64, Located>)
    requires Resting(trace, w) && Drains(ScanOf(w), w.spool, pending, None) && ScanOf(w).segments == []
    ensures w.spool == map[]
  {
    var scan := ScanOf(w);
    assert forall id :: id in w.spool ==> Referenced(scan, id);
  }

  // ---- confirming and committing --------------------------------------------------------------

  lemma ConfirmAllowed(trace: seq<World>, w: World)
    requires Resting(trace, w) && HasFullReceipt(ScanOf(w))
    ensures
      var delivery := w.store.value.coordinator.active.value.delivery;
      && (delivery.InProgress? || (delivery.Confirmed? && delivery.rows == SealedRows(ScanOf(w))))
      && (delivery.InProgress? ==>
            && Enabled(w, ConfirmDelivery)
            && var next := WithConfirmation(w.store.value).value;
            && next == w.store.value.(coordinator := next.coordinator)
            && next.coordinator.generation == w.store.value.coordinator.generation
            && next.coordinator.active.Some?
            && next.coordinator.active.value.delivery.Confirmed?)
  {
    TraceInv(trace, w);
  }

  lemma CommitAllowed(trace: seq<World>, w: World)
    requires Resting(trace, w) && HasFullReceipt(ScanOf(w)) && w.spool == map[]
    requires w.store.value.coordinator.active.value.delivery.Confirmed?
    ensures CommittedState(w.store.value).Ok? <==> w.store.value.coordinator.generation < MAX_U64
    ensures CommittedState(w.store.value).Ok? ==>
              && Enabled(w, CommitScan)
              && Commits(w.store.value, CommittedState(w.store.value).value)
  {
    TraceInv(trace, w);
  }

  /** What a commit makes of the state. */
  predicate Commits(state: InputState, next: InputState) {
    && state.scan.Some? && next.scan.None? && next.coordinator.active.None?
    && state.coordinator.generation < MAX_U64 && next.coordinator.generation == state.coordinator.generation + 1
    && next.revision == state.revision
    && next.coordinator.committed ==
       (if state.scan.value.maximumCandidate.Some? then state.scan.value.maximumCandidate else state.coordinator.committed)
  }

  function CommitAdvances(state: InputState): bool
    requires state.scan.Some?
  {
    CursorAdvanced(state.coordinator.committed, state.scan.value.maximumCandidate)
  }

  /** The commit reports an advance exactly when the committed cursor moved. */
  lemma AdvanceIsAMove(trace: seq<World>, w: World, next: InputState)
    requires Resting(trace, w) && HasFullReceipt(ScanOf(w)) && Commits(w.store.value, next)
    ensures CommitAdvances(w.store.value) <==> next.coordinator.committed != w.store.value.coordinator.committed
    ensures w.store.value.coordinator.active.value.collection.Completed?
    ensures w.store.value.coordinator.active.value.collection.candidate == ScanOf(w).maximumCandidate
  {
    TraceInv(trace, w);
  }

  lemma SentSoFar(log: seq<Row>, events: seq<Row>, sent: nat, count: nat)
    requires sent + count <= |events|
    ensures log + events[..sent] + events[sent..sent + count] == log + events[..sent + count]
  {
    assert events[..sent] + events[sent..sent + count] == events[..sent + count];
    ConcatIsAssociative(log, events[..sent], events[sent..sent + count]);
  }

  lemma SentIsPart(log: seq<Row>, events: seq<Row>, sent: nat)
    requires sent <= |events|
    ensures log <= log + events[..sent] <= log + events
  {
  }

  // ---- accounting for what was sent -----------------------------------------------------------

  /** Sending part of the head stays within what is left; sending all of it leaves the tail. */
  lemma SentAndLeft(log: seq<Row>, head: seq<Row>, tail: seq<Row>, next: seq<Row>)
    requires next <= log + head
    ensures next <= log + (head + tail)
    ensures next == log + head ==> next + tail == log + (head + tail)
  {
    ConcatIsAssociative(log, head, tail);
  }

  lemma UnsentSplits(segments: seq<SegmentRef>, spool: Store)
    requires segments != []
    ensures Unsent(segments, spool) == UnsentOf(segments[0].segmentId, spool) + Unsent(segments[1..], spool)
  {
  }

  /** The counters have room for the page to adopt. */
  predicate Adoptable(scan: ActiveScan, orphan: Option<Segment>) {
    orphan.Some? ==> scan.nextPage < MAX_U64 && SealedRows(scan) + |orphan.value.events| <= MAX_U64
  }

  /** Where the scan resumes, and what it would commit, once the planned page is adopted. */
  function ResumeOf(scan: ActiveScan, orphan: Option<Segment>): Option<Cursor> {
    if orphan.Some? then orphan.value.metadata.resume else scan.resumeAfter
  }

  function CandidateOf(scan: ActiveScan, orphan: Option<Segment>): Option<Cursor> {
    if orphan.Some? then orphan.value.metadata.candidate else scan.maximumCandidate
  }

  /** What adopting the planned page, if there is one, makes of the scan. */
  predicate Extends(state: InputState, next: InputState, orphan: Option<Segment>) {
    && state.scan.Some? && next.scan.Some? && next.coordinator.active.Some?
    && next.coordinator.generation == state.coordinator.generation
    && next.coordinator.committed == state.coordinator.committed
    && next.revision == state.revision && next.identity == state.identity
    && SealedRows(next.scan.value) == SealedRows(state.scan.value) + |EventsOf(orphan)|
    && next.scan.value.resumeAfter == ResumeOf(state.scan.value, orphan)
    && next.scan.value.maximumCandidate == CandidateOf(state.scan.value, orphan)
    && next.scan.value.complete == (state.scan.value.complete || (orphan.Some? && !orphan.value.metadata.truncated))
    && next.scan.value.nextPage == state.scan.value.nextPage + if orphan.Some? then 1 else 0
  }

  lemma AdoptedExtends(state: InputState, scan: ActiveScan, orphan: Segment)
    requires Awaits(state, scan, orphan) && Adoptable(scan, Some(orphan))
    ensures AdoptOrphan(state, orphan).Ok?
    ensures SegmentCount(scan) < MAX_U64
    ensures AdoptOrphan(state, orphan).value.scan == Some(AdoptedScan(scan, orphan))
    ensures Extends(state, AdoptOrphan(state, orphan).value, Some(orphan))
  {
    AdoptionNeedsRoom(state, scan, orphan);
    AdoptedRows(scan, orphan);
  }

  /** Any number of rounds: the same scan with every pending reference gone. */
  predicate Drained(state: InputState, next: InputState) {
    && state.scan.Some? && next.scan.Some?
    && next == state.(scan := next.scan)
    && Settles(state.scan.value, next.scan.value)
  }

  lemma DrainedMore(state: InputState, middle: InputState, next: InputState)
    requires Drained(state, middle) && next == middle.(scan := next.scan)
    requires next.scan.Some? && Rounds(middle.scan.value, next.scan.value)
    ensures Drained(state, next)
  {
  }

  lemma ReceiptsEnd(trace: seq<World>, w: World)
    requires Resting(trace, w)
    ensures ScanOf(w).segments == [] <==> ScanOf(w).compactedThrough == SegmentCount(ScanOf(w))
    ensures NextPending(ScanOf(w)) == 0 ==>
              (ScanOf(w).segments == [] <==> ScanOf(w).deliveredThrough + 1 > SegmentCount(ScanOf(w)))
    ensures SegmentCount(ScanOf(w)) < MAX_U64
  {
    ScanIsValid(trace, w);
  }

  predicate AllReceipted(scan: ActiveScan) {
    scan.deliveredThrough == SegmentCount(scan)
  }

  /** Pruning changes only the references and what is counted as compacted. */
  predicate Pruned(state: InputState, next: InputState) {
    && state.scan.Some? && next.scan.Some?
    && next == state.(scan := next.scan)
    && Settles(state.scan.value, next.scan.value)
  }

  /** Compacting and pruning what is receipted leaves a scan to drain, and the same events to send. */
  ghost predicate Prunes(scan: ActiveScan, spool: Store, plan: Plan) {
    && PrunedScan(scan).Ok?
    && var pruned, left := PrunedScan(scan).value, Without(spool, plan.receipted);
    && Drains(pruned, left, plan.pending, plan.orphan)
    && Unsent(pruned.segments, left) == Unsent(scan.segments, spool)
    && Settles(scan, pruned)
  }

  lemma PrefixPrunes(trace: seq<World>, w: World, plan: Plan)
    requires Resting(trace, w) && PlansFor(w.store.value, w.spool, plan)
    ensures ReceiptedAreGone(ScanOf(w), Without(w.spool, plan.receipted))
    ensures Prunes(ScanOf(w), w.spool, plan)
  {
    var scan, s, left := ScanOf(w), w.store.value.coordinator, Without(w.spool, plan.receipted);
    assert ValidScan(scan, s) by {
      ScanIsValid(trace, w);
    }
    CompactedAreGone(scan, w.spool, plan.receipted);
    CompactionKeepsPlan(scan, w.spool, plan.receipted, plan.pending, plan.orphan);
    PruneLeavesPlan(scan, s, left, plan.pending, plan.orphan);
    PruneLeavesUnsent(scan, s, left);
    PrunedScanIs(scan, s);
  }

  // ---- opening a reconciliation ---------------------------------------------------------------

  /** Every retained segment of a reachable world can be listed, and the inventory check accepts it. */
  lemma InventoryIsAccepted(trace: seq<World>, w: World)
    requires Trace(trace, w) && w.store.Some?
    ensures forall id :: id in w.spool ==> w.spool[id].segment.id == id
    ensures w.store.value.scan.Some? ==>
              && CanonicalSegments(w.store.value.scan.value)
              && w.store.value.scan.value.compactedThrough <= w.store.value.scan.value.deliveredThrough
    ensures AcceptsInventory(w.store.value, w.spool)
  {
    TraceInv(trace, w);
    InvAcceptsInventory(w);
  }

  /** A scan and an active attempt come together, and without them nothing is retained. */
  lemma ScanMeansActive(trace: seq<World>, w: World)
    requires Trace(trace, w)
    ensures w.store.None? ==> w.spool == map[]
    ensures w.store.Some? ==>
      var state := w.store.value;
      && Valid(state.coordinator)
      && state.coordinator.configurationId == ConfigurationFence(state.revision, state.configurationGeneration)
      && (state.scan.Some? <==> state.coordinator.active.Some?)
      && (state.scan.None? ==> w.spool == map[])
  {
    TraceInv(trace, w);
  }

  lemma CleanMeansEmpty(scan: ActiveScan, spool: Store, plan: Plan)
    requires CleanForCollection(plan)
    requires PlansReceipted(scan, spool, |scan.segments|, plan.receipted)
    requires PlansPending(scan, spool, |scan.segments|, plan.pending)
    requires PlansOrphan(scan, spool, plan.orphan)
    ensures spool == map[]
  {
    forall id | id in spool
      ensures HasId(plan.receipted, id)
    {
      var i :| 0 <= i < |scan.segments| && scan.segments[i].segmentId == id;
      assert Receipted(scan, i);
      assert ReceiptedId(scan, |scan.segments|, id);
    }
    assert spool.Keys == {};
  }

  /** Whether the input may run: its identity never changes, its revision only while nothing is retained. */
  predicate Ensurable(w: World) {
    match w.store
    case None => w.spool == map[]
    case Some(state) =>
      && state.identity == w.prepared.identity
      && (state.revision == w.prepared.revision ||
          (state.scan.None? && state.coordinator.active.None? && w.spool == map[] && state.configurationGeneration < MAX_U64))
  }

  // ---- opening a page -------------------------------------------------------------------------

  lemma StartAllowed(trace: seq<World>, w: World, attemptId: AttemptId)
    requires Trace(trace, w) && Quiet(w) && Operable(w) && w.store.value.scan.None?
    ensures Enabled(w, StartScan(attemptId))
    ensures WithAttempt(w.store.value, attemptId).scan == Some(FreshScan(attemptId, w.store.value.coordinator))
    ensures Effect(w, StartScan(attemptId)) == w.(store := Some(WithAttempt(w.store.value, attemptId)), worker := Idle)
    ensures WithAttempt(w.store.value, attemptId).revision == w.store.value.revision
    ensures WithAttempt(w.store.value, attemptId).coordinator.active.Some?
  {
    ScanMeansActive(trace, w);
  }

  /** What a worker that was given a context may rely on. */
  lemma AssignAllowed(w: World)
    requires Quiet(w) && WantsPage(w) && EffectiveBound(RequestOf(w.store.value, ScanOf(w))).Ok?
    ensures Enabled(w, Assign)
    ensures Effect(w, Assign) == w.(worker := Assigned(ContextOf(w.store.value, ScanOf(w))))
  {
  }

  /** An assigned worker's scan still wants the page: nothing else moves while it works. */
  lemma AssignedWantsPage(trace: seq<World>, w: World)
    requires Trace(trace, w) && !w.worker.Idle?
    ensures WantsPage(w) && w.worker.context == ContextOf(w.store.value, ScanOf(w))
    ensures w.sending.None? && EffectiveBound(w.worker.context.request).Ok?
    ensures w.worker.Collected? && w.worker.page.rows == [] ==> w.worker.page.resume.None?
  {
    TraceInv(trace, w);
  }

  lemma RowsMeanCandidate(state: InputState, scan: ActiveScan, source: seq<Row>, k: nat)
    requires ValidState(state) && state.scan == Some(scan) && CursorsAgree(state, scan, source, k)
    ensures SealedRows(scan) == 0 <==> scan.maximumCandidate.None?
    ensures scan.maximumCandidate.Some? && state.coordinator.committed.Some? ==>
              PositionCmp(scan.maximumCandidate.value, state.coordinator.committed.value) != Less
  {
  }

  lemma EmptyCompletes(state: InputState, scan: ActiveScan, source: seq<Row>, k: nat)
    requires ValidState(state) && state.scan == Some(scan) && CursorsAgree(state, scan, source, k)
    requires !scan.complete && state.coordinator.active.value.collection.InProgress?
    ensures CompletedEmpty(state).Ok?
    ensures CompletedEmpty(state).value.scan == Some(scan.(complete := true))
    ensures CompletedEmpty(state).value.coordinator.committed == state.coordinator.committed
  {
    RowsMeanCandidate(state, scan, source, k);
    assert SealedRows(scan.(complete := true)) == SealedRows(scan) <= MAX_U64;
  }

  lemma EmptyPageCompletes(trace: seq<World>, w: World)
    requires Trace(trace, w) && w.worker.Collected? && WantsPage(w)
    ensures CompletedEmpty(w.store.value).Ok?
    ensures CompletedEmpty(w.store.value).value.scan == Some(ScanOf(w).(complete := true))
    ensures CompletedEmpty(w.store.value).value.coordinator.committed == w.store.value.coordinator.committed
  {
    var state := w.store.value;
    assert ValidState(state) && CursorsAgree(state, ScanOf(w), w.source, |Dedup(w.log)|) by {
      TraceInv(trace, w);
    }
    EmptyCompletes(state, ScanOf(w), w.source, |Dedup(w.log)|);
  }

  lemma CompleteEmptyAllowed(trace: seq<World>, w: World)
    requires Trace(trace, w) && w.worker.Collected? && w.worker.page.rows == []
    ensures Enabled(w, CompleteEmpty)
    ensures Effect(w, CompleteEmpty) == w.(store := Some(CompletedEmpty(w.store.value).value), worker := Idle)
    ensures CompletedEmpty(w.store.value).value.scan == Some(ScanOf(w).(complete := true))
    ensures CompletedEmpty(w.store.value).value.coordinator.committed == w.store.value.coordinator.committed
  {
    AssignedWantsPage(trace, w);
    EmptyPageCompletes(trace, w);
  }

  predicate ScanWantsPage(state: InputState) {
    && state.scan.Some? && state.coordinator.active.Some?
    && !state.scan.value.complete
    && state.coordinator.active.value.collection.InProgress?
    && state.coordinator.active.value.delivery.InProgress?
    && AllReceipted(state.scan.value)
  }

  lemma UncleanMeansWork(trace: seq<World>, w: World, plan: Plan)
    requires Trace(trace, w) && w.store.Some? && PlansFor(w.store.value, w.spool, plan)
    requires !CleanForCollection(plan)
    ensures w.spool != map[]
  {
    InventoryIsAccepted(trace, w);
    if plan.pending != map[] {
      PendingIsReferenced(w.store.value.scan.value, w.spool, plan.pending);
    } else if plan.receipted != [] {
      assert plan.receipted[0].id in w.spool;
    }
  }

  lemma PlanIsClean(trace: seq<World>, w: World, plan: Plan)
    requires Trace(trace, w) && w.store.Some? && PlansFor(w.store.value, w.spool, plan)
    requires CleanForCollection(plan)
    ensures w.spool == map[]
  {
    if w.store.value.scan.Some? {
      CleanMeansEmpty(w.store.value.scan.value, w.spool, plan);
    } else {
      ScanMeansActive(trace, w);
    }
  }

  lemma PendingIsReferenced(scan: ActiveScan, spool: Store, pending: map<U64, Located>)
    requires CanonicalSegments(scan) && scan.compactedThrough <= scan.deliveredThrough
    requires PlansPending(scan, spool, |scan.segments|, pending) && pending != map[]
    ensures spool != map[]
  {
    var n :| n in pending;
    var i := n - scan.compactedThrough - 1;
    assert !Receipted(scan, i);
    assert scan.segments[i].segmentId in spool;
  }

  // ---- what stops a reconciliation besides faults ---------------------------------------------

  /** An open scan under another revision or identity is left alone: no reconciliation, no new page. */
  lemma ForeignScanIsBlocked(w: World)
    requires w.store.Some? && w.store.value.scan.Some? && !Operable(w)
    ensures !Room(w) && !Ensurable(w) && Outstanding(w) == []
  {
  }

  /** Such worlds are reached: an attempt is opened, and then the configuration changes. */
  lemma ForeignScanIsReached(prepared: Prepared, other: Prepared, attemptId: AttemptId)
    returns (trace: seq<World>, w: World)
    requires other != prepared
    ensures Trace(trace, w) && w.prepared == other
    ensures w.store.Some? && w.store.value.scan.Some? && !Operable(w)
    ensures !Room(w)
  {
    var w0 := World.World(prepared, None, map[], Idle, None, [], []);
    TraceOne(w0);
    assert Enabled(w0, CreateState);
    TraceStep([w0], w0, CreateState);
    var w1 := Effect(w0, CreateState);
    trace := [w0] + [w1];
    StartAllowed(trace, w1, attemptId);
    TraceStep(trace, w1, StartScan(attemptId));
    var w2 := Effect(w1, StartScan(attemptId));
    trace := trace + [w2];
    TraceStep(trace, w2, Reconfigure(other));
    w := Effect(w2, Reconfigure(other));
    trace := trace + [w];
    ForeignScanIsBlocked(w);
  }

  /** Pruning, adopting and draining together extend the scan by the adopted page. */
  lemma ExtendsThrough(first: InputState, pruned: InputState, adopted: InputState, drained: InputState, orphan: Option<Segment>)
    requires Pruned(first, pruned) && Extends(pruned, adopted, orphan) && Drained(adopted, drained)
    ensures Extends(first, drained, orphan)
  {
  }

  lemma AdoptableAfterPruning(first: InputState, pruned: InputState, orphan: Option<Segment>)
    requires Pruned(first, pruned)
    ensures Adoptable(first.scan.value, orphan) <==> Adoptable(pruned.scan.value, orphan)
  {
  }
}
