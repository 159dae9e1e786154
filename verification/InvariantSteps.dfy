/** The durable effects of the protocol keep the invariant. */
module InvariantSteps {
  import opened Wrappers
  import opened Cursors
  import opened Identity
  import opened Source
  import opened Spool
  import opened C = Checkpoint
  import opened DurableState
  import opened Rising
  import opened Protocol
  import opened Invariant

  // ---- sealing a page -------------------------------------------------------------------------

  lemma SealedPageIsNext(state: InputState, scan: ActiveScan, source: seq<Row>, k: nat, id: SegmentId, page: Page)
    requires ValidState(state) && state.scan == Some(scan)
    requires CursorsAgree(state, scan, source, k)
    requires SpoolAgrees(state, scan, map[], source, k)
    requires PageAgrees(state, scan, source, page) && 0 < |page.rows| <= MAX_U64
    requires EffectiveBound(RequestOf(state, scan)).Ok?
    requires !scan.complete && scan.deliveredThrough == SegmentCount(scan)
    requires !Referenced(scan, id)
    ensures SpoolAgrees(state, scan, map[id := Ready(Sealed(id, ContextOf(state, scan), page))], source, k)
  {
  }

  lemma SealKeepsInv(w: World, id: SegmentId)
    requires Inv(w) && Enabled(w, SealPage(id))
    ensures Inv(Effect(w, SealPage(id)))
  {
    var state := w.store.value;
    SealedPageIsNext(state, state.scan.value, w.source, |Dedup(w.log)|, id, w.worker.page);
    var segment := Ready(Sealed(id, w.worker.context, w.worker.page));
    assert w.spool[id := segment] == map[id := segment];
  }

  // ---- an empty last page ---------------------------------------------------------------------

  lemma CompletedEmptyState(state: InputState, scan: ActiveScan, source: seq<Row>, k: nat)
    requires ValidState(state) && state.scan == Some(scan) && !scan.complete
    requires CursorsAgree(state, scan, source, k)
    requires state.coordinator.active.value.collection.InProgress?
    requires CompletedEmpty(state).Ok?
    ensures
      var next := CompletedEmpty(state).value;
      && ValidState(next)
      && next.scan == Some(scan.(complete := true))
      && next == state.(coordinator := next.coordinator, scan := next.scan)
      && next.coordinator.committed == state.coordinator.committed
      && CursorsAgree(next, next.scan.value, source, k)
  {
  }

  lemma CompletedEmptySpool(state: InputState, scan: ActiveScan, next: InputState, source: seq<Row>, k: nat)
    requires SpoolAgrees(state, scan, map[], source, k)
    requires scan.deliveredThrough == SegmentCount(scan)
    requires Frontier(next, scan.(complete := true), source) == Frontier(state, scan, source)
    ensures SpoolAgrees(next, scan.(complete := true), map[], source, k)
  {
    var done := scan.(complete := true);
    forall i | 0 <= i < |done.segments|
      ensures RetainedCopy(done, map[], source, Frontier(next, done, source), k, i)
    {
      assert RetainedCopy(scan, map[], source, Frontier(state, scan, source), k, i);
    }
  }

  lemma CompleteEmptyKeepsInv(w: World)
    requires Inv(w) && Enabled(w, CompleteEmpty)
    ensures Inv(Effect(w, CompleteEmpty))
  {
    var state, k := w.store.value, |Dedup(w.log)|;
    CompletedEmptyState(state, state.scan.value, w.source, k);
    CompletedEmptySpool(state, state.scan.value, CompletedEmpty(state).value, w.source, k);
  }

  // ---- sending --------------------------------------------------------------------------------

  lemma BeginSendKeepsInv(w: World)
    requires Inv(w) && Enabled(w, BeginSend)
    ensures Inv(Effect(w, BeginSend))
  {
  }

  lemma SpoolAgreesMonotone(state: InputState, scan: ActiveScan, spool: Store, source: seq<Row>, k: nat, k': nat)
    requires SpoolAgrees(state, scan, spool, source, k) && k <= k'
    ensures SpoolAgrees(state, scan, spool, source, k')
  {
    var frontier := Frontier(state, scan, source);
    forall i | 0 <= i < |scan.segments|
      ensures RetainedCopy(scan, spool, source, frontier, k', i)
    {
      assert RetainedCopy(scan, spool, source, frontier, k, i);
    }
  }

  lemma RefStartStep(scan: ActiveScan, i: nat, frontier: nat)
    requires i < |scan.segments|
    ensures RefStart(scan, i + 1, frontier) == RefStart(scan, i, frontier) + scan.segments[i].rows
    ensures RefStart(scan, i + 1, frontier) <= frontier
  {
    SumRowsFrom(scan.segments, i);
  }

  /** The sink's view grows along the source, up to the events sent so far. */
  lemma SentEventsExtendLog(source: seq<Row>, log: seq<Row>, start: nat, events: seq<Row>, sent: nat, count: nat)
    requires Sorted(source) && |Dedup(log)| <= |source| && Dedup(log) == source[..|Dedup(log)|]
    requires Holds(source, start, events) && sent + count <= |events|
    requires start + sent <= |Dedup(log)|
    ensures
      var after := Dedup(log + events[sent..sent + count]);
      && |after| == (if start + sent + count <= |Dedup(log)| then |Dedup(log)| else start + sent + count)
      && |after| <= |source| && after == source[..|after|]
  {
    var from, upto, k := start + sent, start + sent + count, |Dedup(log)|;
    SliceOfSlice(source, start, start + |events|, sent, sent + count);
    ExtendsPrefix(source, log, k, from, upto, events[sent..sent + count]);
  }

  lemma ExtendsPrefix(source: seq<Row>, log: seq<Row>, k: nat, from: nat, upto: nat, chunk: seq<Row>)
    requires Sorted(source) && from <= upto <= |source| && from <= k <= |source|
    requires Dedup(log) == source[..k] && chunk == source[from..upto]
    ensures Dedup(log + chunk) == source[..if upto <= k then k else upto]
    ensures |Dedup(log + chunk)| == if upto <= k then k else upto
  {
    SendExtendsPrefix(source, log, k, from, upto);
  }

  /** A longer acknowledged prefix, still within the scan, keeps everything said about the spool. */
  lemma LongerPrefixAgrees(state: InputState, scan: ActiveScan, spool: Store, source: seq<Row>, k: nat, k': nat)
    requires CursorsAgree(state, scan, source, k) && SpoolAgrees(state, scan, spool, source, k)
    requires k' == k || k < k' <= Frontier(state, scan, source)
    ensures CursorsAgree(state, scan, source, k') && SpoolAgrees(state, scan, spool, source, k')
  {
    SpoolAgreesMonotone(state, scan, spool, source, k, k');
  }

  lemma SentEventsAgree(state: InputState, scan: ActiveScan, spool: Store, source: seq<Row>, log: seq<Row>, sent: nat, count: nat)
    requires Sorted(source) && |Dedup(log)| <= |source| && Dedup(log) == source[..|Dedup(log)|]
    requires CursorsAgree(state, scan, source, |Dedup(log)|) && SpoolAgrees(state, scan, spool, source, |Dedup(log)|)
    requires HasPending(scan) && PendingId(scan) in spool
    requires RefStart(scan, NextPending(scan), Frontier(state, scan, source)) + sent <= |Dedup(log)|
    requires sent + count <= |spool[PendingId(scan)].segment.events|
    ensures
      var after := Dedup(log + spool[PendingId(scan)].segment.events[sent..sent + count]);
      && |Dedup(log)| <= |after| <= |source| && after == source[..|after|]
      && CursorsAgree(state, scan, source, |after|) && SpoolAgrees(state, scan, spool, source, |after|)
      && RefStart(scan, NextPending(scan), Frontier(state, scan, source)) + sent + count <= |after|
  {
    var i, events, frontier := NextPending(scan), spool[PendingId(scan)].segment.events, Frontier(state, scan, source);
    assert RetainedCopy(scan, spool, source, frontier, |Dedup(log)|, i);
    RefStartStep(scan, i, frontier);
    SentEventsExtendLog(source, log, RefStart(scan, i, frontier), events, sent, count);
    LongerPrefixAgrees(state, scan, spool, source, |Dedup(log)|, |Dedup(log + events[sent..sent + count])|);
  }

  lemma SendKeepsScanInv(w: World, next: World, state: InputState, scan: ActiveScan, count: nat)
    requires Sorted(w.source) && |Dedup(w.log)| <= |w.source| && Dedup(w.log) == w.source[..|Dedup(w.log)|]
    requires w.sending.Some? && ScanInv(w, state, scan, |Dedup(w.log)|)
    requires w.sending.value.sent + count <= |w.spool[w.sending.value.id].segment.events|
    requires
      var Sending(id, sent) := w.sending.value;
      next == w.(sending := Some(Sending(id, sent + count)), log := w.log + w.spool[id].segment.events[sent..sent + count])
    ensures |Dedup(w.log)| <= |Dedup(next.log)| <= |next.source| && Dedup(next.log) == next.source[..|Dedup(next.log)|]
    ensures ScanInv(next, state, scan, |Dedup(next.log)|)
  {
    SentEventsAgree(state, scan, w.spool, w.source, w.log, w.sending.value.sent, count);
  }

  lemma SentStateKeeps(w: World, next: World, count: nat)
    requires Inv(w) && w.sending.Some? && w.sending.value.id in w.spool
    requires w.sending.value.sent + count <= |w.spool[w.sending.value.id].segment.events|
    requires
      var Sending(id, sent) := w.sending.value;
      next == w.(sending := Some(Sending(id, sent + count)), log := w.log + w.spool[id].segment.events[sent..sent + count])
    ensures Inv(next)
  {
    SendKeepsScanInv(w, next, w.store.value, w.store.value.scan.value, count);
  }

  lemma SendKeepsInv(w: World, count: nat)
    requires Inv(w) && Enabled(w, SendEvents(count))
    ensures Inv(Effect(w, SendEvents(count)))
  {
    SentStateKeeps(w, Effect(w, SendEvents(count)), count);
  }

  lemma MarkedDeliveredAgrees(state: InputState, scan: ActiveScan, spool: Store, source: seq<Row>, k: nat)
    requires ValidState(state) && state.scan == Some(scan)
    requires SpoolAgrees(state, scan, spool, source, k) && HasPending(scan)
    requires PendingId(scan) in spool
    requires RefStart(scan, NextPending(scan), Frontier(state, scan, source)) + |spool[PendingId(scan)].segment.events| <= k
    ensures SpoolAgrees(state, scan, spool[PendingId(scan) := Delivered(spool[PendingId(scan)].segment)], source, k)
  {
    var id, frontier := PendingId(scan), Frontier(state, scan, source);
    var marked := spool[id := Delivered(spool[id].segment)];
    forall i | 0 <= i < |scan.segments|
      ensures RetainedCopy(scan, marked, source, frontier, k, i)
    {
      assert RetainedCopy(scan, spool, source, frontier, k, i);
    }
  }

  lemma MarkDeliveredKeepsInv(w: World)
    requires Inv(w) && Enabled(w, MarkDelivered)
    ensures Inv(Effect(w, MarkDelivered))
  {
    MarkedDeliveredAgrees(w.store.value, w.store.value.scan.value, w.spool, w.source, |Dedup(w.log)|);
  }

  // ---- receipt --------------------------------------------------------------------------------

  lemma ReceiptState(state: InputState, scan: ActiveScan, source: seq<Row>, k: nat)
    requires ValidState(state) && state.scan == Some(scan)
    requires CursorsAgree(state, scan, source, k)
    requires HasPending(scan) && scan.deliveredThrough < MAX_U64
    ensures
      var next := WithReceipt(state);
      && ValidState(next)
      && next == state.(scan := Some(scan.(deliveredThrough := scan.deliveredThrough + 1)))
      && CursorsAgree(next, next.scan.value, source, k)
  {
  }

  lemma ReceiptRetained(scan: ActiveScan, done: ActiveScan, spool: Store, source: seq<Row>, frontier: nat, k: nat)
    requires CanonicalSegments(scan) && HasPending(scan) && scan.deliveredThrough < MAX_U64
    requires AllRetained(scan, spool, source, frontier, k)
    requires PendingId(scan) in spool && spool[PendingId(scan)].Delivered?
    requires done == scan.(deliveredThrough := scan.deliveredThrough + 1)
    ensures AllRetained(done, spool, source, frontier, k)
    ensures RefStart(done, NextPending(done), frontier) <= k
  {
    forall i | 0 <= i < |done.segments|
      ensures RetainedCopy(done, spool, source, frontier, k, i)
    {
      assert RetainedCopy(scan, spool, source, frontier, k, i);
    }
    RefStartStep(scan, NextPending(scan), frontier);
    assert RetainedCopy(scan, spool, source, frontier, k, NextPending(scan));
  }

  lemma ReceiptSpool(state: InputState, scan: ActiveScan, spool: Store, source: seq<Row>, k: nat)
    requires ValidState(state) && state.scan == Some(scan)
    requires SpoolAgrees(state, scan, spool, source, k)
    requires HasPending(scan) && scan.deliveredThrough < MAX_U64
    requires PendingId(scan) in spool && spool[PendingId(scan)].Delivered?
    ensures SpoolAgrees(WithReceipt(state), WithReceipt(state).scan.value, spool, source, k)
  {
    var done := WithReceipt(state).scan.value;
    ReceiptRetained(scan, done, spool, source, Frontier(state, scan, source), k);
    assert forall id :: Referenced(scan, id) <==> Referenced(done, id);
  }

  lemma ReceiptKeepsInv(w: World)
    requires Inv(w) && Enabled(w, Receipt)
    ensures Inv(Effect(w, Receipt))
  {
    var state, k := w.store.value, |Dedup(w.log)|;
    ReceiptState(state, state.scan.value, w.source, k);
    ReceiptSpool(state, state.scan.value, w.spool, w.source, k);
  }

  // ---- compaction and pruning -----------------------------------------------------------------

  lemma CompactAgrees(state: InputState, scan: ActiveScan, spool: Store, source: seq<Row>, k: nat, id: SegmentId, n: nat)
    requires ValidState(state) && state.scan == Some(scan)
    requires SpoolAgrees(state, scan, spool, source, k)
    requires n < |scan.segments| && scan.segments[n].segmentId == id && Receipted(scan, n)
    ensures SpoolAgrees(state, scan, spool - {id}, source, k)
  {
    var frontier := Frontier(state, scan, source);
    forall i | 0 <= i < |scan.segments|
      ensures RetainedCopy(scan, spool - {id}, source, frontier, k, i)
    {
      assert RetainedCopy(scan, spool, source, frontier, k, i);
    }
  }

  lemma CompactKeepsInv(w: World, id: SegmentId)
    requires Inv(w) && Enabled(w, Compact(id))
    ensures Inv(Effect(w, Compact(id)))
  {
    var scan := w.store.value.scan.value;
    var n :| 0 <= n < |scan.segments| && scan.segments[n].segmentId == id && Receipted(scan, n);
    CompactAgrees(w.store.value, scan, w.spool, w.source, |Dedup(w.log)|, id, n);
  }

  /** In canonical order the removable references are the ones up to the next pending one. */
  lemma {:induction false} RemovableIs(segments: seq<SegmentRef>, first: nat, deliveredThrough: U64)
    requires forall i :: 0 <= i < |segments| ==> segments[i].sequence == first + 1 + i
    requires first <= deliveredThrough <= first + |segments|
    ensures Removable(segments, deliveredThrough) == deliveredThrough - first
  {
    if segments != [] && first < deliveredThrough {
      RemovableIs(segments[1..], first + 1, deliveredThrough);
    }
  }

  lemma PrunedScanIs(scan: ActiveScan, s: Snapshot)
    requires ValidScan(scan, s)
    ensures Removable(scan.segments, scan.deliveredThrough) == NextPending(scan)
    ensures PrunedScan(scan).Ok?
    ensures
      var pruned, n := PrunedScan(scan).value, NextPending(scan);
      && pruned.compactedThrough == scan.deliveredThrough
      && pruned.segments == scan.segments[n..]
      && SealedRows(pruned) == SealedRows(scan) && SegmentCount(pruned) == SegmentCount(scan)
      && pruned == scan.(compactedThrough := pruned.compactedThrough, compactedRows := pruned.compactedRows,
                         segments := pruned.segments)
      && pruned.compactedRows == scan.compactedRows + SumRows(scan.segments[..n])
  {
    var n := NextPending(scan);
    RemovableIs(scan.segments, scan.compactedThrough, scan.deliveredThrough);
    SumRowsSplit(scan.segments, n);
    if n == 0 {
      assert scan.segments[n..] == scan.segments;
    }
  }

  lemma PrunedScanValid(scan: ActiveScan, s: Snapshot)
    requires ValidScan(scan, s)
    ensures PrunedScan(scan).Ok? && ValidScan(PrunedScan(scan).value, s)
  {
    PrunedScanIs(scan, s);
    var n := NextPending(scan);
    if n > 0 {
      assert scan.segments[..n][0] == scan.segments[0];
    }
    var pruned := PrunedScan(scan).value;
    assert CanonicalSegments(pruned);
  }

  /** After pruning, reference `i` is the former reference `n + i`, over the same rows. */
  lemma PrunedReferences(scan: ActiveScan, spool: Store, source: seq<Row>, frontier: nat, k: nat, s: Snapshot)
    requires ValidScan(scan, s)
    requires forall i :: 0 <= i < |scan.segments| ==> RetainedCopy(scan, spool, source, frontier, k, i)
    ensures PrunedScan(scan).Ok?
    ensures
      var pruned := PrunedScan(scan).value;
      && RefStart(pruned, 0, frontier) == RefStart(scan, NextPending(scan), frontier)
      && forall i :: 0 <= i < |pruned.segments| ==> RetainedCopy(pruned, spool, source, frontier, k, i)
  {
    PrunedScanIs(scan, s);
    var pruned, n := PrunedScan(scan).value, NextPending(scan);
    assert pruned.segments[0..] == scan.segments[n..];
    forall i | 0 <= i < |pruned.segments|
      ensures RetainedCopy(pruned, spool, source, frontier, k, i)
    {
      assert RetainedCopy(scan, spool, source, frontier, k, n + i);
      assert pruned.segments[i..] == scan.segments[n + i..];
    }
  }

  lemma PrunedKeepsReferenced(scan: ActiveScan, s: Snapshot, spool: Store, id: SegmentId)
    requires ValidScan(scan, s) && id in spool
    requires forall i :: 0 <= i < NextPending(scan) ==> scan.segments[i].segmentId !in spool
    ensures PrunedScan(scan).Ok?
    ensures Referenced(PrunedScan(scan).value, id) <==> Referenced(scan, id)
  {
    PrunedScanIs(scan, s);
    var pruned, n := PrunedScan(scan).value, NextPending(scan);
    if Referenced(scan, id) {
      var i :| 0 <= i < |scan.segments| && scan.segments[i].segmentId == id;
      assert pruned.segments[i - n].segmentId == id;
    }
  }

  lemma PruneState(state: InputState, scan: ActiveScan, source: seq<Row>, k: nat)
    requires ValidState(state) && state.scan == Some(scan)
    requires CursorsAgree(state, scan, source, k)
    ensures PrunedScan(scan).Ok?
    ensures
      var pruned := PrunedScan(scan).value;
      var next := state.(scan := Some(pruned));
      ValidState(next) && CursorsAgree(next, pruned, source, k)
  {
    PrunedScanIs(scan, state.coordinator);
    PrunedScanValid(scan, state.coordinator);
  }

  lemma PruneSpool(state: InputState, scan: ActiveScan, spool: Store, source: seq<Row>, k: nat)
    requires ValidState(state) && state.scan == Some(scan)
    requires SpoolAgrees(state, scan, spool, source, k)
    requires forall i :: 0 <= i < NextPending(scan) ==> scan.segments[i].segmentId !in spool
    ensures PrunedScan(scan).Ok?
    ensures SpoolAgrees(state.(scan := Some(PrunedScan(scan).value)), PrunedScan(scan).value, spool, source, k)
  {
    PrunedScanIs(scan, state.coordinator);
    PrunedReferences(scan, spool, source, Frontier(state, scan, source), k, state.coordinator);
    forall id | id in spool
      ensures Referenced(PrunedScan(scan).value, id) <==> Referenced(scan, id)
    {
      PrunedKeepsReferenced(scan, state.coordinator, spool, id);
    }
  }

  lemma PruneKeepsInv(w: World)
    requires Inv(w) && Enabled(w, Prune)
    ensures Inv(Effect(w, Prune))
  {
    var state := w.store.value;
    PrunedScanIs(state.scan.value, state.coordinator);
    PruneState(state, state.scan.value, w.source, |Dedup(w.log)|);
    PruneSpool(state, state.scan.value, w.spool, w.source, |Dedup(w.log)|);
  }

  // ---- confirmation and commit ----------------------------------------------------------------

  lemma ConfirmationAgrees(state: InputState, scan: ActiveScan, spool: Store, source: seq<Row>, k: nat)
    requires ValidState(state) && state.scan == Some(scan)
    requires CursorsAgree(state, scan, source, k) && SpoolAgrees(state, scan, spool, source, k)
    requires HasFullReceipt(scan) && state.coordinator.active.value.delivery.InProgress?
    ensures WithConfirmation(state).Ok?
    ensures
      var next := WithConfirmation(state).value;
      && ValidState(next)
      && next == state.(coordinator := next.coordinator)
      && next.coordinator == WithDelivery(state.coordinator, DeliveryState.Confirmed(SealedRows(scan)))
      && CursorsAgree(next, scan, source, k) && SpoolAgrees(next, scan, spool, source, k)
  {
  }

  lemma ConfirmKeepsInv(w: World)
    requires Inv(w) && Enabled(w, ConfirmDelivery)
    ensures Inv(Effect(w, ConfirmDelivery))
  {
    ConfirmationAgrees(w.store.value, w.store.value.scan.value, w.spool, w.source, |Dedup(w.log)|);
  }

  /** The committed position after a scan counts the larger of the old position and the frontier. */
  lemma CommittedPosition(source: seq<Row>, resume: Cursor, committed: Option<Cursor>)
    requires Sorted(source)
    ensures
      var u, d := Through(source, committed), Through(source, Some(resume));
      Through(source, Some(MaxCursor(resume, committed))) == if u <= d then d else u
  {
    ThroughSplits(source, resume);
    if committed.Some? {
      ThroughSplits(source, committed.value);
      var u, d := Through(source, committed), Through(source, Some(resume));
      if PositionCmp(committed.value, resume) == Greater {
        assert d > 0 ==> AtMost(source[d - 1].cursor, committed.value);
      } else {
        assert u > 0 ==> AtMost(source[u - 1].cursor, resume);
      }
    }
  }

  lemma CommitAgrees(state: InputState, scan: ActiveScan, source: seq<Row>, k: nat)
    requires Sorted(source)
    requires ValidState(state) && state.scan == Some(scan)
    requires CursorsAgree(state, scan, source, k) && SpoolAgrees(state, scan, map[], source, k)
    requires CommittedIndex(state, source) <= k
    requires HasFullReceipt(scan) && CommittedState(state).Ok?
    ensures
      var next := CommittedState(state).value;
      && ValidState(next) && next.scan.None?
      && next.identity == state.identity
      && CommittedIndex(next, source) == k
  {
    LowAtMostCommitted(state, source);
    if scan.resumeAfter.Some? {
      CommittedPosition(source, scan.resumeAfter.value, state.coordinator.committed);
    }
    assert scan.segments[NextPending(scan)..] == [];
  }

  lemma CommitKeepsInv(w: World)
    requires Inv(w) && Enabled(w, CommitScan)
    ensures Inv(Effect(w, CommitScan))
  {
    CommitAgrees(w.store.value, w.store.value.scan.value, w.source, |Dedup(w.log)|);
  }

  // ---- adopting the next page -----------------------------------------------------------------

  /** The facts about the page that the adoption check and the invariant establish together. */
  ghost predicate Adopts(state: InputState, scan: ActiveScan, orphan: Segment, source: seq<Row>, k: nat) {
    && Sorted(source)
    && ValidState(state) && state.scan == Some(scan)
    && CursorsAgree(state, scan, source, k)
    && NextPage(state, scan, Ready(orphan), source, Frontier(state, scan, source))
    && AdoptOrphan(state, orphan).Ok?
    && !Referenced(scan, orphan.id)
  }

  lemma AdoptedShape(state: InputState, scan: ActiveScan, orphan: Segment, source: seq<Row>, k: nat)
    requires Adopts(state, scan, orphan, source, k)
    ensures SegmentCount(scan) < MAX_U64 && scan.nextPage < MAX_U64
    ensures
      var next := AdoptOrphan(state, orphan).value;
      && next.scan == Some(AdoptedScan(scan, orphan))
      && next == state.(coordinator := next.coordinator, scan := next.scan)
      && next.coordinator.committed == state.coordinator.committed
      && next.coordinator.generation == state.coordinator.generation
      && next.coordinator.active.Some?
      && next.coordinator.active.value.fence == state.coordinator.active.value.fence
      && next.coordinator.active.value.delivery == state.coordinator.active.value.delivery
  {
  }

  lemma AdoptedRows(scan: ActiveScan, orphan: Segment)
    requires SegmentCount(scan) < MAX_U64 && scan.nextPage < MAX_U64
    ensures SealedRows(AdoptedScan(scan, orphan)) == SealedRows(scan) + orphan.metadata.rows
    ensures forall i :: 0 <= i <= |scan.segments| ==>
              SumRows(AdoptedScan(scan, orphan).segments[i..]) == SumRows(scan.segments[i..]) + orphan.metadata.rows
  {
    var adopted := AdoptedScan(scan, orphan);
    var added := adopted.segments[|scan.segments|..];
    assert SumRows(added) == orphan.metadata.rows + SumRows(added[1..]);
    forall i | 0 <= i <= |scan.segments|
      ensures SumRows(adopted.segments[i..]) == SumRows(scan.segments[i..]) + orphan.metadata.rows
    {
      SumRowsAppend(scan.segments[i..], added);
      assert adopted.segments[i..] == scan.segments[i..] + added;
    }
    assert scan.segments[0..] == scan.segments && adopted.segments[0..] == adopted.segments;
  }

  lemma AdoptedDistinct(scan: ActiveScan, orphan: Segment)
    requires SegmentCount(scan) < MAX_U64 && scan.nextPage < MAX_U64
    requires !Referenced(scan, orphan.id) && CanonicalSegments(scan)
    ensures
      var segments := AdoptedScan(scan, orphan).segments;
      forall i, j :: 0 <= i < j < |segments| ==> segments[i].segmentId != segments[j].segmentId
  {
  }

  lemma AdoptedFrontier(state: InputState, scan: ActiveScan, orphan: Segment, source: seq<Row>, k: nat)
    requires Adopts(state, scan, orphan, source, k)
    ensures Through(source, orphan.metadata.resume) == Frontier(state, scan, source) + |orphan.events|
    ensures source[Frontier(state, scan, source) + |orphan.events| - 1].cursor == orphan.metadata.resume.value
    ensures StrictlyAdvances(scan.resumeAfter, orphan.metadata.resume)
    ensures !Regresses(scan.maximumCandidate, orphan.metadata.candidate)
  {
    var frontier := Frontier(state, scan, source);
    var last := frontier + |orphan.events| - 1;
    assert source[last] == orphan.events[|orphan.events| - 1];
    ThroughRow(source, last);
    if scan.resumeAfter.Some? {
      assert Before(source[frontier - 1].cursor, source[last].cursor);
    }
  }

  lemma AdoptedScanValid(state: InputState, scan: ActiveScan, orphan: Segment, source: seq<Row>, k: nat)
    requires Adopts(state, scan, orphan, source, k)
    requires SegmentCount(scan) < MAX_U64 && scan.nextPage < MAX_U64
    ensures CanonicalSegments(AdoptedScan(scan, orphan))
    ensures ValidReceipts(AdoptedScan(scan, orphan)) && ValidScanCursors(AdoptedScan(scan, orphan))
  {
    AdoptedRows(scan, orphan);
    AdoptedFrontier(state, scan, orphan, source, k);
    AdoptedDistinct(scan, orphan);
  }

  lemma AdoptedCoordinator(state: InputState, scan: ActiveScan, orphan: Segment, source: seq<Row>, k: nat)
    requires Adopts(state, scan, orphan, source, k)
    requires SegmentCount(scan) < MAX_U64 && scan.nextPage < MAX_U64
    ensures
      var next, adopted := AdoptOrphan(state, orphan).value, AdoptedScan(scan, orphan);
      && Valid(next.coordinator)
      && next.coordinator.configurationId == state.coordinator.configurationId
      && next.coordinator.active.Some? && ValidProgress(adopted, next.coordinator.active.value)
      && !next.coordinator.active.value.collection.Failed?
      && |adopted.segments| <= MAX_SEGMENTS_PER_SCAN
  {
    AdoptedFrontier(state, scan, orphan, source, k);
  }

  lemma AdoptedState(state: InputState, scan: ActiveScan, orphan: Segment, source: seq<Row>, k: nat)
    requires Adopts(state, scan, orphan, source, k)
    ensures
      var next := AdoptOrphan(state, orphan).value;
      && ValidState(next)
      && CursorsAgree(next, next.scan.value, source, k)
  {
    AdoptedShape(state, scan, orphan, source, k);
    var next := AdoptOrphan(state, orphan).value;
    assert ValidState(next) by {
      AdoptedScanValid(state, scan, orphan, source, k);
      AdoptedCoordinator(state, scan, orphan, source, k);
    }
    AdoptedCursors(state, scan, orphan, source, k);
  }

  lemma AdoptedCursors(state: InputState, scan: ActiveScan, orphan: Segment, source: seq<Row>, k: nat)
    requires Adopts(state, scan, orphan, source, k)
    ensures CursorsAgree(AdoptOrphan(state, orphan).value, AdoptOrphan(state, orphan).value.scan.value, source, k)
  {
    AdoptedShape(state, scan, orphan, source, k);
    var next, adopted := AdoptOrphan(state, orphan).value, AdoptedScan(scan, orphan);
    AdoptedFrontier(state, scan, orphan, source, k);
    assert SealedRows(adopted) == SealedRows(scan) + |orphan.events| by {
      AdoptedRows(scan, orphan);
    }
    assert LowIndex(next, source) == LowIndex(state, source) && CommittedIndex(next, source) == CommittedIndex(state, source);
    assert !next.coordinator.active.value.collection.Failed? by {
      AdoptedCoordinator(state, scan, orphan, source, k);
    }
  }

  lemma AdoptedRetainedOld(state: InputState, scan: ActiveScan, spool: Store, orphan: Segment, source: seq<Row>, k: nat, i: nat)
    requires Adopts(state, scan, orphan, source, k)
    requires i < |scan.segments| && RetainedCopy(scan, spool, source, Frontier(state, scan, source), k, i)
    requires SegmentCount(scan) < MAX_U64 && scan.nextPage < MAX_U64
    ensures RetainedCopy(
              AdoptedScan(scan, orphan), spool, source, Frontier(state, scan, source) + |orphan.events|, k, i)
  {
    AdoptedRows(scan, orphan);
    assert AdoptedScan(scan, orphan).segments[i] == scan.segments[i];
  }

  lemma AdoptedRetainedNew(state: InputState, scan: ActiveScan, spool: Store, orphan: Segment, source: seq<Row>, k: nat)
    requires Adopts(state, scan, orphan, source, k)
    requires orphan.id in spool && spool[orphan.id] == Ready(orphan)
    requires SegmentCount(scan) < MAX_U64 && scan.nextPage < MAX_U64
    ensures RetainedCopy(
              AdoptedScan(scan, orphan), spool, source, Frontier(state, scan, source) + |orphan.events|, k, |scan.segments|)
  {
    AdoptedRows(scan, orphan);
    assert scan.segments[|scan.segments|..] == [];
  }

  lemma AdoptedRetained(state: InputState, scan: ActiveScan, spool: Store, orphan: Segment, source: seq<Row>, k: nat, after: nat)
    requires Adopts(state, scan, orphan, source, k)
    requires AllRetained(scan, spool, source, Frontier(state, scan, source), k)
    requires orphan.id in spool && spool[orphan.id] == Ready(orphan)
    requires SegmentCount(scan) < MAX_U64 && scan.nextPage < MAX_U64
    requires after == Frontier(state, scan, source) + |orphan.events|
    ensures AllRetained(AdoptedScan(scan, orphan), spool, source, after, k)
  {
    AdoptedRetainedNew(state, scan, spool, orphan, source, k);
    var adopted := AdoptedScan(scan, orphan);
    forall i | 0 <= i < |adopted.segments|
      ensures RetainedCopy(adopted, spool, source, after, k, i)
    {
      if i < |scan.segments| {
        assert RetainedCopy(scan, spool, source, Frontier(state, scan, source), k, i);
        AdoptedRetainedOld(state, scan, spool, orphan, source, k, i);
      }
    }
  }

  lemma AdoptedReferences(scan: ActiveScan, orphan: Segment, id: SegmentId)
    requires SegmentCount(scan) < MAX_U64 && scan.nextPage < MAX_U64
    ensures Referenced(AdoptedScan(scan, orphan), id) <==> Referenced(scan, id) || id == orphan.id
  {
    var adopted := AdoptedScan(scan, orphan);
    assert adopted.segments[|scan.segments|].segmentId == orphan.id;
    if Referenced(scan, id) {
      var i :| 0 <= i < |scan.segments| && scan.segments[i].segmentId == id;
      assert adopted.segments[i].segmentId == id;
    }
  }

  /** The fence a segment must match is set by the attempt and the configuration alone. */
  lemma SameFence(state: InputState, next: InputState, spool: Store)
    requires AllInFence(state, spool)
    requires next == state.(coordinator := next.coordinator, scan := next.scan)
    requires next.coordinator.generation == state.coordinator.generation
    requires state.coordinator.active.Some? && next.coordinator.active.Some?
    requires next.coordinator.active.value.fence == state.coordinator.active.value.fence
    ensures AllInFence(next, spool)
  {
  }

  lemma AdoptedLeavesNoOrphan(state: InputState, scan: ActiveScan, spool: Store, orphan: Segment, source: seq<Row>, frontier: nat)
    requires SegmentCount(scan) < MAX_U64 && scan.nextPage < MAX_U64
    requires OnlyNextPage(state, scan, spool, source, frontier)
    requires orphan.id in spool && !Referenced(scan, orphan.id)
    ensures forall id :: id in spool ==> Referenced(AdoptedScan(scan, orphan), id)
  {
    forall id | id in spool
      ensures Referenced(AdoptedScan(scan, orphan), id)
    {
      AdoptedReferences(scan, orphan, id);
    }
  }

  lemma AdoptedPendingStart(scan: ActiveScan, orphan: Segment, frontier: nat)
    requires SegmentCount(scan) < MAX_U64 && scan.nextPage < MAX_U64
    requires 0 <= NextPending(scan) <= |scan.segments|
    requires orphan.metadata.rows == |orphan.events|
    ensures RefStart(AdoptedScan(scan, orphan), NextPending(scan), frontier + |orphan.events|)
         == RefStart(scan, NextPending(scan), frontier)
  {
    AdoptedRows(scan, orphan);
  }

  lemma SpoolAgreesFromParts(state: InputState, scan: ActiveScan, spool: Store, source: seq<Row>, k: nat, frontier: nat)
    requires Frontier(state, scan, source) == frontier
    requires AllInFence(state, spool)
    requires AllRetained(scan, spool, source, frontier, k)
    requires forall id :: id in spool ==> Referenced(scan, id)
    requires 0 <= NextPending(scan) <= |scan.segments| && RefStart(scan, NextPending(scan), frontier) <= k
    ensures SpoolAgrees(state, scan, spool, source, k)
  {
  }

  lemma AdoptedSpool(state: InputState, scan: ActiveScan, spool: Store, orphan: Segment, source: seq<Row>, k: nat)
    requires Adopts(state, scan, orphan, source, k)
    requires SpoolAgrees(state, scan, spool, source, k)
    requires orphan.id in spool && spool[orphan.id] == Ready(orphan)
    ensures
      var next := AdoptOrphan(state, orphan).value;
      && next.scan.Some?
      && SpoolAgrees(next, next.scan.value, spool, source, k)
  {
    AdoptedShape(state, scan, orphan, source, k);
    var next, adopted, frontier := AdoptOrphan(state, orphan).value, AdoptedScan(scan, orphan), Frontier(state, scan, source);
    var after := frontier + |orphan.events|;
    assert Frontier(next, adopted, source) == after by {
      AdoptedFrontier(state, scan, orphan, source, k);
    }
    assert AllInFence(next, spool) by {
      SameFence(state, next, spool);
    }
    assert AllRetained(adopted, spool, source, after, k) by {
      AdoptedRetained(state, scan, spool, orphan, source, k, after);
    }
    AdoptedLeavesNoOrphan(state, scan, spool, orphan, source, frontier);
    AdoptedPendingStart(scan, orphan, frontier);
    SpoolAgreesFromParts(next, adopted, spool, source, k, after);
  }

  lemma AdoptKeepsInv(w: World, id: SegmentId)
    requires Inv(w) && Enabled(w, Adopt(id))
    ensures Inv(Effect(w, Adopt(id)))
  {
    var state, orphan := w.store.value, w.spool[id].segment;
    AdoptedShape(state, state.scan.value, orphan, w.source, |Dedup(w.log)|);
    AdoptedState(state, state.scan.value, orphan, w.source, |Dedup(w.log)|);
    AdoptedSpool(state, state.scan.value, w.spool, orphan, w.source, |Dedup(w.log)|);
  }

  // ---- the source changes beyond what was read ------------------------------------------------

  lemma SameBelow(source: seq<Row>, grown: seq<Row>, c: Cursor, n: nat)
    requires Through(grown, Some(c)) == Through(source, Some(c))
    requires grown[..Through(grown, Some(c))] == source[..Through(source, Some(c))]
    requires n <= Through(source, Some(c))
    ensures grown[..n] == source[..n]
  {
    assert grown[..Through(grown, Some(c))][..n] == source[..Through(source, Some(c))][..n];
  }

  lemma LowIndexStable(state: InputState, source: seq<Row>, grown: seq<Row>)
    requires Sorted(source) && Sorted(grown)
    requires
      var committed := state.coordinator.committed;
      && Through(grown, committed) == Through(source, committed)
      && grown[..Through(grown, committed)] == source[..Through(source, committed)]
    ensures LowIndex(state, grown) == LowIndex(state, source)
  {
    var u := CommittedIndex(state, source);
    LowAtMostCommitted(state, source);
    LowAtMostCommitted(state, grown);
    match InitialBound(SpecOf(state.identity, state.revision), state.coordinator.committed) {
      case Err(_) =>
      case Ok(bound) =>
        var low, low' := Skip(source, bound), Skip(grown, bound);
        SkipSplits(source, bound);
        SkipSplits(grown, bound);
        assert low < u ==> source[..u][low] == grown[..u][low];
        assert low' < u ==> source[..u][low'] == grown[..u][low'];
    }
  }

  /** Rows that end at or before a position already read stay where they are. */
  lemma HoldsStable(source: seq<Row>, grown: seq<Row>, c: Cursor, from: int, events: seq<Row>)
    requires Through(grown, Some(c)) == Through(source, Some(c))
    requires grown[..Through(grown, Some(c))] == source[..Through(source, Some(c))]
    requires Holds(source, from, events) && from + |events| <= Through(source, Some(c))
    ensures Holds(grown, from, events)
  {
    SameBelow(source, grown, c, from + |events|);
    assert grown[..from + |events|][from..] == source[..from + |events|][from..];
  }

  lemma GrowPositions(w: World, grown: seq<Row>)
    requires Inv(w) && Enabled(w, GrowSource(grown)) && w.store.Some?
    ensures CommittedIndex(w.store.value, grown) == CommittedIndex(w.store.value, w.source)
    ensures LowIndex(w.store.value, grown) == LowIndex(w.store.value, w.source)
    ensures w.store.value.scan.Some? ==>
      && Frontier(w.store.value, w.store.value.scan.value, grown) == Frontier(w.store.value, w.store.value.scan.value, w.source)
  {
    var state := w.store.value;
    assert state.coordinator.committed.Some? ==> CollectedPosition(w, state.coordinator.committed.value);
    LowIndexStable(state, w.source, grown);
    if state.scan.Some? && state.scan.value.resumeAfter.Some? {
      assert CollectedPosition(w, state.scan.value.resumeAfter.value);
    }
  }

  lemma GrowLog(w: World, grown: seq<Row>)
    requires Inv(w) && Enabled(w, GrowSource(grown))
    ensures |Dedup(w.log)| <= |grown| && Dedup(w.log) == grown[..|Dedup(w.log)|]
  {
    var k := |Dedup(w.log)|;
    if w.store.Some? && k > 0 {
      var state := w.store.value;
      LowAtMostCommitted(state, w.source);
      if k <= CommittedIndex(state, w.source) {
        assert CollectedPosition(w, state.coordinator.committed.value);
        SameBelow(w.source, grown, state.coordinator.committed.value, k);
      } else {
        var resume := state.scan.value.resumeAfter;
        assert CollectedPosition(w, resume.value);
        SameBelow(w.source, grown, resume.value, k);
      }
    }
  }

  lemma GrowRetained(scan: ActiveScan, spool: Store, source: seq<Row>, grown: seq<Row>, frontier: nat, k: nat)
    requires AllRetained(scan, spool, source, frontier, k)
    requires scan.segments != [] ==>
      && scan.resumeAfter.Some? && frontier == Through(source, scan.resumeAfter) == Through(grown, scan.resumeAfter)
      && grown[..frontier] == source[..frontier]
    ensures AllRetained(scan, spool, grown, frontier, k)
  {
    forall i | 0 <= i < |scan.segments|
      ensures RetainedCopy(scan, spool, grown, frontier, k, i)
    {
      assert RetainedCopy(scan, spool, source, frontier, k, i);
      RefStartStep(scan, i, frontier);
      var id := scan.segments[i].segmentId;
      if id in spool {
        HoldsStable(source, grown, scan.resumeAfter.value, RefStart(scan, i, frontier), spool[id].segment.events);
      }
    }
  }

  /** A page read from the frontier on stays readable there. */
  lemma GrowPage(w: World, grown: seq<Row>, frontier: nat, events: seq<Row>, resume: Cursor)
    requires Sorted(w.source) && Enabled(w, GrowSource(grown)) && CollectedPosition(w, resume)
    requires Holds(w.source, frontier, events) && events != [] && events[|events| - 1].cursor == resume
    ensures Holds(grown, frontier, events)
  {
    assert w.source[frontier + |events| - 1] == events[|events| - 1];
    ThroughRow(w.source, frontier + |events| - 1);
    HoldsStable(w.source, grown, resume, frontier, events);
  }

  lemma GrowCursors(w: World, grown: seq<Row>, state: InputState, scan: ActiveScan)
    requires Inv(w) && Enabled(w, GrowSource(grown)) && w.store == Some(state) && state.scan == Some(scan)
    ensures CursorsAgree(state, scan, grown, |Dedup(w.log)|)
    ensures scan.resumeAfter.Some? ==>
      var frontier := Frontier(state, scan, w.source);
      && Through(grown, scan.resumeAfter) == frontier && grown[..frontier] == w.source[..frontier]
  {
    GrowPositions(w, grown);
    if scan.resumeAfter.Some? {
      assert CollectedPosition(w, scan.resumeAfter.value);
      var frontier := Frontier(state, scan, w.source);
      assert grown[..frontier][frontier - 1] == w.source[..frontier][frontier - 1];
    }
  }

  lemma GrowSpool(w: World, grown: seq<Row>, state: InputState, scan: ActiveScan)
    requires Inv(w) && Enabled(w, GrowSource(grown)) && w.store == Some(state) && state.scan == Some(scan)
    ensures SpoolAgrees(state, scan, w.spool, grown, |Dedup(w.log)|)
  {
    GrowPositions(w, grown);
    GrowCursors(w, grown, state, scan);
    var frontier := Frontier(state, scan, w.source);
    GrowRetained(scan, w.spool, w.source, grown, frontier, |Dedup(w.log)|);
    forall id | id in w.spool && !Referenced(scan, id)
      ensures NextPage(state, scan, w.spool[id], grown, frontier)
    {
      var segment := w.spool[id].segment;
      assert CollectedPosition(w, segment.metadata.resume.value);
      GrowPage(w, grown, frontier, segment.events, segment.metadata.resume.value);
    }
  }

  lemma GrowWorker(w: World, grown: seq<Row>, state: InputState, scan: ActiveScan)
    requires Inv(w) && Enabled(w, GrowSource(grown)) && w.store == Some(state) && state.scan == Some(scan)
    ensures WorkerAgrees(w.(source := grown), state, scan)
    ensures SendingAgrees(w.(source := grown), state, scan, |Dedup(w.log)|)
  {
    GrowPositions(w, grown);
    if w.worker.Collected? && w.worker.page.rows != [] {
      var page := w.worker.page;
      assert CollectedPosition(w, page.resume.value);
      GrowPage(w, grown, Frontier(state, scan, w.source), page.rows, page.resume.value);
    }
  }

  lemma GrowKeepsInv(w: World, grown: seq<Row>)
    requires Inv(w) && Enabled(w, GrowSource(grown))
    ensures Inv(Effect(w, GrowSource(grown)))
  {
    GrowLog(w, grown);
    if w.store.Some? {
      GrowPositions(w, grown);
      if w.store.value.scan.Some? {
        var state := w.store.value;
        GrowCursors(w, grown, state, state.scan.value);
        GrowSpool(w, grown, state, state.scan.value);
        GrowWorker(w, grown, state, state.scan.value);
      }
    }
  }
}