/** Why the bound of every page can be computed: the committed cursor is a row's, and resuming stays behind the bound. */
module Bounds {
  import opened Wrappers
  import opened Cursors
  import opened Identity
  import opened Source
  import opened C = Checkpoint
  import opened DurableState
  import opened Rising
  import opened Protocol
  import opened Invariant
  import opened InvariantSteps
  import opened Safety
  import opened Recovery
  import opened Reconcile

  // ---- where the cursors and counters come from -----------------------------------------------

  /** The committed cursor is the cursor of a row. */
  predicate CommittedIsRow(state: InputState, source: seq<Row>) {
    state.coordinator.committed.Some? ==>
      && 1 <= CommittedIndex(state, source)
      && source[CommittedIndex(state, source) - 1].cursor == state.coordinator.committed.value
  }

  /** Each pruned reference accounts for a row at least. */
  predicate PrunedHaveRows(state: InputState) {
    state.scan.Some? ==> state.scan.value.compactedThrough <= state.scan.value.compactedRows
  }

  predicate Grounded(w: World) {
    w.store.Some? ==> CommittedIsRow(w.store.value, w.source) && PrunedHaveRows(w.store.value)
  }

  lemma {:induction false} EachHasARow(segments: seq<SegmentRef>)
    requires forall i :: 0 <= i < |segments| ==> segments[i].rows > 0
    ensures |segments| <= SumRows(segments)
  {
    if segments != [] {
      EachHasARow(segments[1..]);
    }
  }

  lemma PrunedStillHaveRows(state: InputState, scan: ActiveScan)
    requires state.scan == Some(scan) && ValidScan(scan, state.coordinator) && PrunedHaveRows(state)
    ensures PrunedScan(scan).Ok? && PrunedHaveRows(state.(scan := Some(PrunedScan(scan).value)))
  {
    PrunedScanIs(scan, state.coordinator);
    EachHasARow(scan.segments[..NextPending(scan)]);
  }

  lemma PruneKeepsGrounded(w: World)
    requires Inv(w) && Grounded(w) && Enabled(w, Prune)
    ensures Grounded(Effect(w, Prune))
  {
    PrunedStillHaveRows(w.store.value, w.store.value.scan.value);
  }

  lemma CommitTakesARow(state: InputState, scan: ActiveScan, source: seq<Row>, k: nat)
    requires Sorted(source) && ValidState(state) && state.scan == Some(scan)
    requires CursorsAgree(state, scan, source, k) && CommittedIsRow(state, source) && CommittedState(state).Ok?
    ensures CommittedIsRow(CommittedState(state).value, source) && CommittedState(state).value.scan.None?
  {
    if scan.resumeAfter.Some? {
      CommittedPosition(source, scan.resumeAfter.value, state.coordinator.committed);
      ThroughSplits(source, scan.resumeAfter.value);
    }
  }

  lemma CommitKeepsGrounded(w: World)
    requires Inv(w) && Grounded(w) && Enabled(w, CommitScan)
    ensures Grounded(Effect(w, CommitScan))
  {
    CommitTakesARow(w.store.value, w.store.value.scan.value, w.source, |Dedup(w.log)|);
  }

  lemma GrowKeepsGrounded(w: World, grown: seq<Row>)
    requires Inv(w) && Grounded(w) && Enabled(w, GrowSource(grown))
    ensures Grounded(Effect(w, GrowSource(grown)))
  {
    if w.store.Some? && w.store.value.coordinator.committed.Some? {
      var c := w.store.value.coordinator.committed;
      assert CollectedPosition(w, c.value);
      var n := Through(w.source, c);
      assert grown[..n][n - 1] == w.source[..n][n - 1];
    }
  }

  /** The committed cursor stays, and so does what was pruned; a new scan has pruned nothing. */
  predicate KeepsGround(state: InputState, next: InputState) {
    && next.coordinator.committed == state.coordinator.committed
    && (next.scan.Some? ==>
          || (next.scan.value.compactedThrough == 0)
          || (state.scan.Some?
              && next.scan.value.compactedThrough == state.scan.value.compactedThrough
              && next.scan.value.compactedRows == state.scan.value.compactedRows))
  }

  predicate MovesGround(a: Action) {
    a.Prune? || a.CommitScan? || a.GrowSource?
  }

  lemma OthersKeepGround(w: World, a: Action)
    requires Enabled(w, a) && !MovesGround(a) && w.store.Some?
    ensures Effect(w, a).source == w.source
    ensures Effect(w, a).store.Some? && KeepsGround(w.store.value, Effect(w, a).store.value)
  {
  }

  lemma KeptGround(w: World, next: World)
    requires Grounded(w) && w.store.Some? && next.source == w.source
    requires next.store.Some? && KeepsGround(w.store.value, next.store.value)
    ensures Grounded(next)
  {
  }

  lemma OthersKeepGrounded(w: World, a: Action)
    requires Grounded(w) && Enabled(w, a) && !MovesGround(a)
    ensures Grounded(Effect(w, a))
  {
    if w.store.Some? {
      OthersKeepGround(w, a);
      KeptGround(w, Effect(w, a));
    }
  }

  lemma ActionKeepsGrounded(w: World, a: Action)
    requires Inv(w) && Grounded(w) && Enabled(w, a)
    ensures Grounded(Effect(w, a))
  {
    if !MovesGround(a) {
      OthersKeepGrounded(w, a);
    } else if a.Prune? {
      PruneKeepsGrounded(w);
    } else if a.CommitScan? {
      CommitKeepsGrounded(w);
    } else {
      GrowKeepsGrounded(w, a.source);
    }
  }

  lemma StepKeepsGrounded(w: World, next: World)
    requires Inv(w) && Grounded(w) && StepsTo(w, next)
    ensures Grounded(next)
  {
    var a :| Enabled(w, a) && Effect(w, a) == next;
    ActionKeepsGrounded(w, a);
  }

  lemma {:induction false} RunIsGrounded(worlds: seq<World>, i: nat)
    requires Run(worlds) && Initial(worlds[0]) && i < |worlds|
    ensures Inv(worlds[i]) && Grounded(worlds[i])
  {
    InitialInv(worlds[0]);
    RunKeepsInv(worlds, i);
    if i > 0 {
      var j := i - 1;
      RunIsGrounded(worlds, j);
      assert StepsTo(worlds[j], worlds[j + 1]);
      StepKeepsGrounded(worlds[j], worlds[j + 1]);
    }
  }

  /** In every reachable world the committed cursor is that of a row of the table. */
  lemma CommittedComesFromARow(worlds: seq<World>, w: World)
    requires Trace(worlds, w) && CommittedCursor(w).Some?
    ensures exists i :: 0 <= i < |w.source| && w.source[i].cursor == CommittedCursor(w).value
  {
    RunIsGrounded(worlds, |worlds| - 1);
    assert w.source[CommittedIndex(w.store.value, w.source) - 1].cursor == CommittedCursor(w).value;
  }

  /** In every reachable world a scan has sealed a row for each of its pages. */
  lemma PagesHaveRows(worlds: seq<World>, w: World)
    requires Trace(worlds, w) && w.store.Some? && w.store.value.scan.Some?
    ensures w.store.value.scan.value.nextPage <= 1 + SealedRows(w.store.value.scan.value)
  {
    RunIsGrounded(worlds, |worlds| - 1);
    EachHasARow(w.store.value.scan.value.segments);
  }

  // ---- the bound of the next page -------------------------------------------------------------

  /** A scan resumes at a row that its first bound admits, so not before that bound. */
  lemma ResumeIsBehindBound(state: InputState, scan: ActiveScan, source: seq<Row>, k: nat)
    requires Sorted(source) && ValidState(state) && state.scan == Some(scan)
    requires CursorsAgree(state, scan, source, k) && scan.resumeAfter.Some?
    ensures
      var initial := InitialBound(SpecOf(state.identity, state.revision), state.coordinator.committed);
      && initial.Ok?
      && (initial.value.Some? ==> PositionCmp(scan.resumeAfter.value, initial.value.value.value) != Less)
  {
    var bound := InitialBound(SpecOf(state.identity, state.revision), state.coordinator.committed).value;
    SkipSplits(source, bound);
    assert SealedRows(scan) > 0;
    assert Admits(bound, source[Frontier(state, scan, source) - 1].cursor);
  }

  /** Over a valid definition only the first bound can be missing: resuming never spoils it. */
  lemma ResumingKeepsBound(worlds: seq<World>, w: World)
    requires Trace(worlds, w) && w.store.Some?
    requires ValidateSpec(SpecOf(w.store.value.identity, w.store.value.revision)).Pass?
    ensures
      var state := w.store.value;
      EffectiveBound(NextRequest(state)).Ok? <==>
        InitialBound(SpecOf(state.identity, state.revision), state.coordinator.committed).Ok?
  {
    var state := w.store.value;
    if state.scan.Some? && state.scan.value.resumeAfter.Some? {
      assert Sorted(w.source) && ValidState(state) && CursorsAgree(state, state.scan.value, w.source, |Dedup(w.log)|) by {
        TraceInv(worlds, w);
      }
      ResumeIsBehindBound(state, state.scan.value, w.source, |Dedup(w.log)|);
    }
  }

  /** The first query starts at a timestamp that exists. */
  predicate Reaches(spec: CursorSpec, committed: Option<Cursor>) {
    committed.Some? && !IsZero(spec.overlap) ==> MIN_I64 <= committed.value.ts - AsMicros(spec.overlap)
  }

  lemma InitialBoundExists(spec: CursorSpec, committed: Option<Cursor>)
    requires ValidateSpec(spec).Pass?
    ensures InitialBound(spec, committed).Ok? <==> Reaches(spec, committed)
  {
  }

  /**
   The exact condition: over a valid definition the next page of a reachable world has a bound if and
   only if the overlap does not reach below the smallest timestamp.
   */
  lemma BoundExistsExactlyWhen(worlds: seq<World>, w: World)
    requires Trace(worlds, w) && Ensurable(w) && ValidateSpec(SpecOf(w.prepared.identity, w.prepared.revision)).Pass?
    ensures
      EffectiveBound(NextRequest(Ensured(w))).Ok? <==>
        Reaches(SpecOf(w.prepared.identity, w.prepared.revision), CommittedCursor(w))
  {
    InitialBoundExists(SpecOf(w.prepared.identity, w.prepared.revision), CommittedCursor(w));
    if w.store.Some? && w.store.value.revision == w.prepared.revision {
      ResumingKeepsBound(worlds, w);
    }
  }

  const MAX_OVERLAP_SECS: nat := 365 * 24 * 60 * 60
  const MAX_OVERLAP_MICROS: nat := MAX_OVERLAP_SECS * 1_000_000

  /** What the configuration demands of a rising input's cursor. */
  predicate Configurable(prepared: Prepared) {
    && !IsBlank(prepared.identity.cursor.timestampField) && !IsBlank(prepared.identity.cursor.idField)
    && prepared.identity.cursor.timestampField != prepared.identity.cursor.idField
    && prepared.revision.overlap.nanos == 0 && prepared.revision.overlap.secs <= MAX_OVERLAP_SECS
  }

  /** Rows carry calendar timestamps, which end far above the smallest 64-bit number. */
  predicate InCalendar(source: seq<Row>) {
    forall i :: 0 <= i < |source| ==> MIN_I64 + MAX_OVERLAP_MICROS <= source[i].cursor.ts
  }

  lemma ConfigurableIsValid(prepared: Prepared)
    requires Configurable(prepared)
    ensures ValidateSpec(SpecOf(prepared.identity, prepared.revision)).Pass?
    ensures AsMicros(prepared.revision.overlap) <= MAX_OVERLAP_MICROS
  {
  }

  /** For what can be configured, over calendar timestamps, the next page always has a bound. */
  lemma ConfiguredBoundExists(worlds: seq<World>, w: World)
    requires Trace(worlds, w) && Ensurable(w) && Configurable(w.prepared) && InCalendar(w.source)
    ensures EffectiveBound(NextRequest(Ensured(w))).Ok?
  {
    ConfigurableIsValid(w.prepared);
    BoundExistsExactlyWhen(worlds, w);
    if CommittedCursor(w).Some? {
      CommittedComesFromARow(worlds, w);
    }
  }

  /** So whether a page can be asked for depends on the input's state and the candidate ids alone. */
  lemma ConfiguredCanAsk(worlds: seq<World>, w: World, candidates: seq<AttemptId>)
    requires Trace(worlds, w) && Configurable(w.prepared) && InCalendar(w.source)
    ensures CanAsk(w, candidates) <==> Ensurable(w) && (w.spool == map[] ==> CanOpen(Ensured(w), candidates))
  {
    if Ensurable(w) {
      ConfiguredBoundExists(worlds, w);
    }
  }
}
