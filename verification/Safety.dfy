/** What holds in every reachable world of the rising protocol. */
module Safety {
  import opened Wrappers
  import opened Cursors
  import opened Identity
  import opened Source
  import opened Spool
  import opened C = Checkpoint
  import opened DurableState
  import opened Rising
  import opened Protocol
  import opened Invariant
  import opened InvariantSteps

  predicate IsVolatile(a: Action) {
    a.Crash? || a.Reconfigure? || a.GrowSource? || a.Assign? || a.CollectPage?
  }

  predicate OpensWork(a: Action) {
    a.CreateState? || a.Activate? || a.StartScan? || a.SealPage? || a.CompleteEmpty? || a.Adopt?
  }

  predicate IsDelivery(a: Action) {
    a.BeginSend? || a.SendEvents? || a.MarkDelivered? || a.Receipt?
  }

  lemma VolatileKeepsInv(w: World, a: Action)
    requires Inv(w) && Enabled(w, a) && IsVolatile(a)
    ensures Inv(Effect(w, a))
  {
    match a {
      case Crash => CrashKeepsInv(w);
      case Reconfigure(prepared) => ReconfigureKeepsInv(w, prepared);
      case GrowSource(source) => GrowKeepsInv(w, source);
      case Assign => AssignKeepsInv(w);
      case CollectPage(maxRows) => CollectKeepsInv(w, maxRows);
    }
  }

  lemma OpeningKeepsInv(w: World, a: Action)
    requires Inv(w) && Enabled(w, a) && OpensWork(a)
    ensures Inv(Effect(w, a))
  {
    match a {
      case CreateState => CreateKeepsInv(w);
      case Activate => ActivateKeepsInv(w);
      case StartScan(attemptId) => StartKeepsInv(w, attemptId);
      case SealPage(id) => SealKeepsInv(w, id);
      case CompleteEmpty => CompleteEmptyKeepsInv(w);
      case Adopt(id) => AdoptKeepsInv(w, id);
    }
  }

  lemma DeliveryKeepsInv(w: World, a: Action)
    requires Inv(w) && Enabled(w, a) && IsDelivery(a)
    ensures Inv(Effect(w, a))
  {
    match a {
      case BeginSend => BeginSendKeepsInv(w);
      case SendEvents(count) => SendKeepsInv(w, count);
      case MarkDelivered => MarkDeliveredKeepsInv(w);
      case Receipt => ReceiptKeepsInv(w);
    }
  }

  lemma SettlingKeepsInv(w: World, a: Action)
    requires Inv(w) && Enabled(w, a) && !IsVolatile(a) && !OpensWork(a) && !IsDelivery(a)
    ensures Inv(Effect(w, a))
  {
    match a {
      case Compact(id) => CompactKeepsInv(w, id);
      case Prune => PruneKeepsInv(w);
      case ConfirmDelivery => ConfirmKeepsInv(w);
      case CommitScan => CommitKeepsInv(w);
    }
  }

  /** Every action, a crash included, keeps the invariant. */
  lemma StepKeepsInv(w: World, a: Action)
    requires Inv(w) && Enabled(w, a)
    ensures Inv(Effect(w, a))
  {
    if IsVolatile(a) {
      VolatileKeepsInv(w, a);
    } else if OpensWork(a) {
      OpeningKeepsInv(w, a);
    } else if IsDelivery(a) {
      DeliveryKeepsInv(w, a);
    } else {
      SettlingKeepsInv(w, a);
    }
  }

  lemma StepsToKeepsInv(w: World, next: World)
    requires Inv(w) && StepsTo(w, next)
    ensures Inv(next)
  {
    var a :| Enabled(w, a) && Effect(w, a) == next;
    StepKeepsInv(w, a);
  }

  lemma {:induction false} RunKeepsInv(worlds: seq<World>, i: nat)
    requires Run(worlds) && Inv(worlds[0]) && i < |worlds|
    ensures Inv(worlds[i])
  {
    if i > 0 {
      var j := i - 1;
      RunKeepsInv(worlds, j);
      assert StepsTo(worlds[j], worlds[j + 1]);
      StepsToKeepsInv(worlds[j], worlds[j + 1]);
    }
  }

  lemma InitialInv(w: World)
    requires Initial(w)
    ensures Inv(w)
  {
  }

  ghost predicate Reachable(w: World) {
    exists worlds :: Trace(worlds, w)
  }

  lemma TraceInv(worlds: seq<World>, w: World)
    requires Trace(worlds, w)
    ensures Inv(w)
  {
    InitialInv(worlds[0]);
    RunKeepsInv(worlds, |worlds| - 1);
  }

  lemma ReachableInv(w: World)
    requires Reachable(w)
    ensures Inv(w)
  {
    var worlds :| Trace(worlds, w);
    TraceInv(worlds, w);
  }

  // ---- the identity of a state never changes --------------------------------------------------

  lemma OpeningKeepsIdentity(w: World, a: Action)
    requires Enabled(w, a) && OpensWork(a) && w.store.Some?
    ensures Effect(w, a).store.Some? && Effect(w, a).store.value.identity == w.store.value.identity
  {
  }

  lemma OtherKeepsIdentity(w: World, a: Action)
    requires Enabled(w, a) && !OpensWork(a) && w.store.Some?
    ensures Effect(w, a).store.Some? && Effect(w, a).store.value.identity == w.store.value.identity
  {
  }

  lemma StepKeepsIdentity(w: World, next: World)
    requires StepsTo(w, next) && w.store.Some?
    ensures next.store.Some? && next.store.value.identity == w.store.value.identity
  {
    var a :| Enabled(w, a) && Effect(w, a) == next;
    if OpensWork(a) {
      OpeningKeepsIdentity(w, a);
    } else {
      OtherKeepsIdentity(w, a);
    }
  }

  /** Whatever configurations come and go, a state keeps the identity it was created with. */
  lemma {:induction false} IdentityIsFixed(worlds: seq<World>, i: nat, j: nat)
    requires Run(worlds) && i <= j < |worlds| && worlds[i].store.Some?
    ensures worlds[j].store.Some? && worlds[j].store.value.identity == worlds[i].store.value.identity
    decreases j - i
  {
    if i < j {
      var m := j - 1;
      IdentityIsFixed(worlds, i, m);
      assert StepsTo(worlds[m], worlds[m + 1]);
      StepKeepsIdentity(worlds[m], worlds[m + 1]);
    }
  }

  function CommittedCursor(w: World): Option<Cursor> {
    if w.store.Some? then w.store.value.coordinator.committed else None
  }

  /**
   No loss: in every reachable world, crashes included, each source row at or before the committed
   cursor has been acknowledged by the sink.
   */
  lemma NoLoss(w: World, i: nat)
    requires Reachable(w) && i < |w.source|
    requires CommittedCursor(w).Some? && AtMost(w.source[i].cursor, CommittedCursor(w).value)
    ensures w.source[i] in w.log
  {
    ReachableInv(w);
    ThroughSplits(w.source, CommittedCursor(w).value);
    assert Dedup(w.log)[i] == w.source[i];
    DedupKeepsMembers(w.log, w.source[i]);
  }

  /** The rows at or before a cursor, in the order given. */
  function UpTo(rows: seq<Row>, c: Cursor): seq<Row> {
    if rows == [] then []
    else
      var n := |rows| - 1;
      UpTo(rows[..n], c) + if AtMost(rows[n].cursor, c) then [rows[n]] else []
  }

  lemma {:induction false} UpToIsPrefix(source: seq<Row>, c: Cursor)
    requires Sorted(source)
    ensures UpTo(source, c) == source[..Through(source, Some(c))]
  {
    ThroughSplits(source, c);
    if source != [] {
      var n := |source| - 1;
      UpToIsPrefix(source[..n], c);
      ThroughSplits(source[..n], c);
      var before := Through(source[..n], Some(c));
      assert source[..n][..before] == source[..before];
      if AtMost(source[n].cursor, c) {
        assert Through(source, Some(c)) == n + 1;
        assert n > 0 ==> source[..n][n - 1] == source[n - 1] && AtMost(source[n - 1].cursor, c);
        assert source[..n] + [source[n]] == source;
      }
    }
  }

  lemma PrefixUpTo(source: seq<Row>, c: Cursor, k: nat)
    requires Sorted(source) && Through(source, Some(c)) <= k <= |source|
    ensures UpTo(source[..k], c) == UpTo(source, c)
  {
    UpToIsPrefix(source, c);
    UpToIsPrefix(source[..k], c);
    ThroughSplits(source, c);
    ThroughSplits(source[..k], c);
    var n, m := Through(source, Some(c)), Through(source[..k], Some(c));
    assert m < k ==> source[..k][m] == source[m];
    assert n < k ==> source[..k][n] == source[n];
    assert source[..k][..m] == source[..m];
  }

  /**
   Exactly once after de-duplication: what the sink acknowledged, with repeats dropped and cut at
   the committed cursor, is the source cut at the committed cursor, in source order.
   */
  lemma ExactlyOnceAfterDedup(w: World)
    requires Reachable(w) && CommittedCursor(w).Some?
    ensures
      var c := CommittedCursor(w).value;
      UpTo(Dedup(w.log), c) == UpTo(w.source, c) == w.source[..Through(w.source, Some(c))]
  {
    ReachableInv(w);
    UpToIsPrefix(w.source, CommittedCursor(w).value);
    PrefixUpTo(w.source, CommittedCursor(w).value, |Dedup(w.log)|);
  }

  // ---- conservation and recovery --------------------------------------------------------------

  /**
   Row conservation: the counters of a scan account for every row read since its first bound, the
   references are consecutive, and the counters are ordered.
   */
  lemma RowsAreConserved(w: World)
    requires Reachable(w) && w.store.Some? && w.store.value.scan.Some?
    ensures
      var state := w.store.value;
      var scan := state.scan.value;
      && SealedRows(scan) == Frontier(state, scan, w.source) - LowIndex(state, w.source)
      && scan.compactedThrough <= scan.deliveredThrough <= SegmentCount(scan) == scan.nextPage - 1
      && (forall i :: 0 <= i < |scan.segments| ==> scan.segments[i].sequence == scan.compactedThrough + 1 + i)
      && (scan.maximumCandidate.Some? <==> SealedRows(scan) > 0)
  {
    ReachableInv(w);
  }

  /** The rows confirmed after pruning are the rows recorded at completion, so only the generation can stop a commit. */
  lemma CommitCannotMismatch(w: World)
    requires Reachable(w) && Scanning(w)
    requires HasFullReceipt(w.store.value.scan.value)
    ensures
      var state := w.store.value;
      && WithConfirmation(state).Ok?
      && var confirmed := WithConfirmation(state).value;
      && (CommittedState(confirmed).Ok? <==> state.coordinator.generation < MAX_U64)
  {
    ReachableInv(w);
  }

  /** Every reachable world, at whatever point it crashed, is one the inventory check accepts. */
  lemma CrashedInventoryIsAccepted(w: World)
    requires Reachable(w) && w.store.Some?
    ensures AcceptsInventory(w.store.value, w.spool)
  {
    ReachableInv(w);
    InvAcceptsInventory(w);
  }

  lemma InvAcceptsInventory(w: World)
    requires Inv(w) && w.store.Some?
    ensures AcceptsInventory(w.store.value, w.spool)
  {
    if w.store.value.scan.Some? {
      var scan := w.store.value.scan.value;
      forall i | 0 <= i < |scan.segments|
        ensures AcceptsReference(scan, w.spool, i)
      {
        assert RetainedCopy(scan, w.spool, w.source, Frontier(w.store.value, scan, w.source), |Dedup(w.log)|, i);
      }
    }
  }
}
