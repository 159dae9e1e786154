/** Every compare-exchange the coordinator issues is one the state store accepts. */
module Acceptance {
  import opened Wrappers
  import opened Cursors
  import opened Identity
  import opened Source
  import opened Spool
  import opened C = Checkpoint
  import opened DurableState
  import opened Rising
  import opened Protocol
  import opened Invariant
  import opened InvariantSteps
  import opened Safety

  predicate IsCompareExchange(a: Action) {
    a.StartScan? || a.CompleteEmpty? || a.Adopt? || a.Receipt? || a.Prune? || a.ConfirmDelivery? || a.CommitScan?
  }

  lemma StartTransition(state: InputState, attemptId: AttemptId)
    requires ValidState(state) && state.coordinator.active.None?
    requires StartAttempt(state.coordinator, StartFence(state, attemptId)).result.Ok?
    ensures ValidTransition(state, WithAttempt(state, attemptId))
  {
  }

  lemma CompleteEmptyTransition(state: InputState, scan: ActiveScan)
    requires ValidState(state) && state.scan == Some(scan) && !scan.complete
    requires state.coordinator.active.value.collection.InProgress?
    requires CompletedEmpty(state).Ok?
    ensures ValidTransition(state, CompletedEmpty(state).value)
  {
  }

  lemma AdoptTransition(state: InputState, scan: ActiveScan, orphan: Segment, source: seq<Row>, k: nat)
    requires Adopts(state, scan, orphan, source, k)
    ensures ValidTransition(state, AdoptOrphan(state, orphan).value)
  {
    AdoptedShape(state, scan, orphan, source, k);
    AdoptedFrontier(state, scan, orphan, source, k);
  }

  lemma ReceiptTransition(state: InputState, scan: ActiveScan)
    requires ValidState(state) && state.scan == Some(scan)
    requires HasPending(scan) && scan.deliveredThrough < MAX_U64
    ensures ValidTransition(state, WithReceipt(state))
  {
  }

  lemma PruneTransition(state: InputState, scan: ActiveScan)
    requires ValidState(state) && state.scan == Some(scan)
    requires NextPending(scan) > 0
    ensures PrunedScan(scan).Ok?
    ensures ValidTransition(state, state.(scan := Some(PrunedScan(scan).value)))
  {
    PrunedScanIs(scan, state.coordinator);
  }

  lemma ConfirmTransition(state: InputState, scan: ActiveScan)
    requires ValidState(state) && state.scan == Some(scan) && HasFullReceipt(scan)
    requires state.coordinator.active.value.delivery.InProgress? && WithConfirmation(state).Ok?
    ensures ValidTransition(state, WithConfirmation(state).value)
  {
  }

  lemma CommitTransition(state: InputState, scan: ActiveScan)
    requires ValidState(state) && state.scan == Some(scan) && HasFullReceipt(scan)
    requires CommittedState(state).Ok?
    ensures ValidTransition(state, CommittedState(state).value)
  {
  }

  lemma AdoptAccepted(w: World, id: SegmentId)
    requires Inv(w) && Enabled(w, Adopt(id))
    ensures ValidTransition(w.store.value, AdoptOrphan(w.store.value, w.spool[id].segment).value)
  {
    AdoptTransition(w.store.value, w.store.value.scan.value, w.spool[id].segment, w.source, |Dedup(w.log)|);
  }

  /** Every removable reference is one more than none, so a removable prefix is a pending one. */
  lemma RemovableMeansPending(state: InputState, scan: ActiveScan)
    requires ValidState(state) && state.scan == Some(scan) && 0 < Removable(scan.segments, scan.deliveredThrough)
    ensures NextPending(scan) > 0
  {
    PrunedScanIs(scan, state.coordinator);
  }

  lemma TransitionAccepted(w: World, a: Action)
    requires Inv(w) && Enabled(w, a) && IsCompareExchange(a)
    ensures w.store.Some? && Effect(w, a).store.Some?
    ensures ValidTransition(w.store.value, Effect(w, a).store.value)
  {
    var state := w.store.value;
    match a {
      case StartScan(attemptId) => StartTransition(state, attemptId);
      case CompleteEmpty => CompleteEmptyTransition(state, state.scan.value);
      case Adopt(id) => AdoptAccepted(w, id);
      case Receipt => ReceiptTransition(state, state.scan.value);
      case Prune =>
        RemovableMeansPending(state, state.scan.value);
        PruneTransition(state, state.scan.value);
      case ConfirmDelivery => ConfirmTransition(state, state.scan.value);
      case CommitScan => CommitTransition(state, state.scan.value);
    }
  }

  /** The store accepts every write the protocol makes, so only a stale token or a fault can refuse it. */
  lemma CompareExchangeAccepted(w: World, a: Action)
    requires Inv(w) && Enabled(w, a) && IsCompareExchange(a)
    ensures w.store.Some? && Effect(w, a).store.Some?
    ensures StoreAccepts(w.store.value, Effect(w, a).store.value)
  {
    TransitionAccepted(w, a);
    StepKeepsInv(w, a);
  }
}
