/**
 The rising coordinator over its durable state. Every durable effect may be lost, or may happen
 without the caller learning of it, as after a crash; whatever a call answers, the world it leaves
 is one the protocol reaches from the world it found.
 */
module Reconcile {
  import opened Wrappers
  import opened Cursors
  import opened Identity
  import opened Source
  import opened Spool
  import opened C = Checkpoint
  import opened DurableState
  import opened Rising
  import opened Protocol
  import opened Invariant
  import opened InvariantSteps
  import opened Safety
  import opened Acceptance
  import opened Inventory
  import opened Recovery

  /** What may befall one durable effect. */
  datatype Fault = NoFault | Lost | Unreported

  /** A state as loaded, with the token a later write must present. */
  datatype Stored = Stored(token: nat, value: InputState)

  datatype Reconciled =
    | Settled(checkpointGeneration: U64)
    | NeedsCollection(checkpointGeneration: U64, nextPage: U64)
    | Finished(checkpointGeneration: U64, cursorAdvanced: bool)

  /** What a reconciliation that ends with everything delivered and compacted reports. */
  predicate Ends(state: InputState, next: Option<InputState>, outcome: Reconciled)
    requires state.scan.Some?
  {
    next.Some? && next.value.revision == state.revision && next.value.identity == state.identity &&
    if !state.scan.value.complete then
      && next.value == state
      && outcome == NeedsCollection(state.coordinator.generation, state.scan.value.nextPage)
    else
      && next.value.scan.None?
      && outcome == Finished(next.value.coordinator.generation, next.value.coordinator.committed != state.coordinator.committed)
      && next.value.coordinator.generation == state.coordinator.generation + 1
      && next.value.coordinator.committed == CommittedBy(state, state.scan.value.maximumCandidate)
  }

  /** A scan without a candidate leaves the committed cursor. */
  function CommittedBy(state: InputState, candidate: Option<Cursor>): Option<Cursor> {
    if candidate.Some? then candidate else state.coordinator.committed
  }

  /** What a reconciliation of a scan reports, in terms of what it found. */
  predicate ReportsScan(state: InputState, orphan: Option<Segment>, next: Option<InputState>, outcome: Reconciled)
    requires state.scan.Some?
  {
    && next.Some? && next.value.revision == state.revision && next.value.identity == state.identity
    && if state.scan.value.complete || (orphan.Some? && !orphan.value.metadata.truncated) then
         && next.value.scan.None?
         && state.coordinator.generation < MAX_U64
         && next.value.coordinator.generation == state.coordinator.generation + 1
         && next.value.coordinator.committed == CommittedBy(state, CandidateOf(state.scan.value, orphan))
         && outcome == Finished(
              next.value.coordinator.generation, next.value.coordinator.committed != state.coordinator.committed)
       else
         && next.value.scan.Some? && !next.value.scan.value.complete
         && next.value.scan.value.segments == [] && AllReceipted(next.value.scan.value)
         && SealedRows(next.value.scan.value) == SealedRows(state.scan.value) + |EventsOf(orphan)|
         && next.value.scan.value.resumeAfter == ResumeOf(state.scan.value, orphan)
         && next.value.coordinator.generation == state.coordinator.generation
         && next.value.coordinator.committed == state.coordinator.committed
         && next.value.scan.value.nextPage == state.scan.value.nextPage + (if orphan.Some? then 1 else 0)
         && outcome == NeedsCollection(state.coordinator.generation, next.value.scan.value.nextPage)
  }

  /** What a successful reconciliation reports, in terms of the world it found. */
  ghost predicate Reports(w: World, next: Option<InputState>, outcome: Reconciled) {
    match w.store
    case None => next == None && outcome == Settled(INITIAL_CHECKPOINT_GENERATION)
    case Some(state) =>
      if state.scan.Some? then ReportsScan(state, Orphan(state.scan.value, w.spool), next, outcome)
      else
        && Ensurable(w) && next == Some(Ensured(w))
        && outcome == Settled(state.coordinator.generation)
  }

  /** The scan is complete and its collection recorded: all its rows, and the candidate of its last page. */
  predicate Completes(state: InputState, next: InputState)
    requires state.scan.Some?
  {
    && state.coordinator.active.Some? && SealedRows(state.scan.value) <= MAX_U64
    && next == state.(
         scan := Some(state.scan.value.(complete := true)),
         coordinator := WithCollection(
           state.coordinator, Completed(SealedRows(state.scan.value), state.scan.value.maximumCandidate)))
  }

  /** A new attempt: not the one committed last, over a scan that has read nothing. */
  predicate Opened(state: InputState, next: InputState, attemptId: AttemptId) {
    && Differs(state.coordinator.last, attemptId)
    && next == state.(coordinator := next.coordinator, scan := Some(FreshScan(attemptId, state.coordinator)))
    && next.coordinator == state.coordinator.(active := Some(ActiveAttempt(
         StartFence(state, attemptId), CollectionState.InProgress, DeliveryState.InProgress)))
  }

  /** The state after an input was ensured. */
  function Ensured(w: World): InputState
    requires Ensurable(w)
  {
    if w.store.None? then InitialState(w.prepared)
    else if w.store.value.revision == w.prepared.revision then w.store.value
    else Activated(w.store.value, w.prepared.revision)
  }

  /** An attempt is open, or a candidate id can open one. */
  predicate CanOpen(state: InputState, candidates: seq<AttemptId>) {
    state.scan.Some? || exists i :: 0 <= i < |candidates| && Differs(state.coordinator.last, candidates[i])
  }

  /** The request for the next page, of the open scan or of the one to be opened. */
  function NextRequest(state: InputState): CursorRequest {
    CursorRequest(
      SpecOf(state.identity, state.revision), state.coordinator.committed,
      if state.scan.Some? then state.scan.value.resumeAfter else None)
  }

  predicate AsksForPage(state: InputState) {
    state.scan.Some? ==> ScanWantsPage(state)
  }

  /** When a page can be asked for without an error. */
  predicate CanAsk(w: World, candidates: seq<AttemptId>) {
    && Ensurable(w)
    && (w.spool == map[] ==>
          && CanOpen(Ensured(w), candidates)
          && (AsksForPage(Ensured(w)) ==> EffectiveBound(NextRequest(Ensured(w))).Ok?))
  }

  lemma OpenedWantsPage(state: InputState, next: InputState, attemptId: AttemptId)
    requires state.scan.None? && Opened(state, next, attemptId)
    ensures ScanWantsPage(next) && RequestOf(next, next.scan.value) == NextRequest(state)
  {
  }

  /** An open scan is kept; otherwise one is opened under one of the candidate ids. */
  predicate Begins(state: InputState, next: InputState, candidates: seq<AttemptId>) {
    if state.scan.Some? then next == state
    else exists i :: 0 <= i < |candidates| && Opened(state, next, candidates[i])
  }

  /** The scan handed to a worker asks for the page that was foreseen. */
  lemma OpeningAsks(state: InputState, next: InputState, candidates: seq<AttemptId>)
    requires next.scan.Some? && Begins(state, next, candidates)
    ensures ScanWantsPage(next) <==> AsksForPage(state)
    ensures RequestOf(next, next.scan.value) == NextRequest(state)
  {
    if state.scan.None? {
      var i :| 0 <= i < |candidates| && Opened(state, next, candidates[i]);
      OpenedWantsPage(state, next, candidates[i]);
    }
  }

  predicate Differs(last: Option<CommittedAttempt>, attemptId: AttemptId) {
    last.Some? ==> last.value.fence.attemptId != attemptId
  }

  class Coordinator {
    var prepared: Prepared
    var state: Option<InputState>
    var version: nat
    var spool: Store
    var worker: Worker
    var sending: Option<Sending>
    // The table, as the next query finds it.
    var source: seq<Row>
    // What the sink acknowledged.
    var log: seq<Row>
    // The run so far.
    ghost var trace: seq<World>
    var effects: nat
    const faults: nat -> Fault

    function World(): World
      reads this
    {
      Protocol.World.World(prepared, state, spool, worker, sending, source, log)
    }

    ghost predicate Traced()
      reads this
    {
      Trace(trace, World())
    }

    constructor (prepared: Prepared, faults: nat -> Fault, source: seq<Row>)
      requires Sorted(source)
      ensures Traced() && trace == [World()] && this.prepared == prepared && this.source == source && this.faults == faults
    {
      this.prepared := prepared;
      this.state := None;
      this.version := 0;
      this.spool := map[];
      this.worker := Idle;
      this.sending := None;
      this.source := source;
      this.log := [];
      this.effects := 0;
      this.trace := [Protocol.World.World(prepared, None, map[], Idle, None, source, [])];
      this.faults := faults;
    }

    /** Takes over what an earlier process left. */
    constructor Resume(world: World, ghost trace: seq<World>, faults: nat -> Fault)
      requires Trace(trace, world)
      ensures Traced() && World() == world && this.trace == trace && this.faults == faults && effects == 0
    {
      this.prepared := world.prepared;
      this.state := world.store;
      this.version := 0;
      this.spool := world.spool;
      this.worker := world.worker;
      this.sending := world.sending;
      this.source := world.source;
      this.log := world.log;
      this.effects := 0;
      this.trace := trace;
      this.faults := faults;
    }

    predicate Current(stored: Stored)
      reads this
    {
      stored.token == version && state == Some(stored.value)
    }

    /** No fault befell the effects since `since`. */
    ghost predicate Clean(since: nat)
      reads this
    {
      forall n :: since <= n < effects ==> faults(n).NoFault?
    }

    // ---- the store --------------------------------------------------------------------------

    /** Replaces the state if the token is current and the transition is a legal one. */
    method CompareExchange(token: nat, next: InputState) returns (r: Result<Stored, RisingError>)
      modifies this
      ensures World() == old(World()).(store := state) && trace == old(trace) && effects == old(effects) + 1
      ensures r.Ok? <==>
        && old(state).Some? && token == old(version) && StoreAccepts(old(state).value, next)
        && faults(old(effects)).NoFault?
      ensures r.Ok? ==> state == Some(next) && r.value == Stored(version, next)
      ensures state == old(state) || (state == Some(next) && old(state).Some? && StoreAccepts(old(state).value, next))
      ensures version == old(version) || version == old(version) + 1
      ensures version == old(version) ==> state == old(state)
    {
      var fault := faults(effects);
      effects := effects + 1;
      if fault.Lost? || state.None? || token != version || !ValidState(next) || !ValidTransition(state.value, next) {
        return Err(StoreFailure);
      }
      state, version := Some(next), version + 1;
      return if fault.NoFault? then Ok(Stored(version, next)) else Err(StoreFailure);
    }

    /** A write the protocol allows is refused only by a fault. */
    method Advance(stored: Stored, next: InputState, ghost a: Action) returns (r: Result<Stored, RisingError>)
      requires Current(stored) && sending.None?
      requires Traced() && IsCompareExchange(a) && Enabled(World(), a)
      requires Effect(World(), a) == World().(store := Some(next), worker := Idle)
      modifies this
      ensures Traced() && old(trace) <= trace
      ensures World() == old(World()).(store := state, worker := Idle) && effects == old(effects) + 1 && state.Some?
      ensures r.Ok? <==> faults(old(effects)).NoFault?
      ensures r.Ok? ==> state == Some(next) && r.value.value == next && Current(r.value)
    {
      ghost var was := World();
      WriteAccepted(trace, was, a);
      r := CompareExchange(stored.token, next);
      worker := Idle;
      trace := TookOrCrashed(trace, was, World(), a);
    }

    /** One request to the sink: the events are acknowledged, or not, or without the caller knowing. */
    method Send(ready: Segment, sent: nat, count: nat) returns (ok: bool)
      requires Traced() && worker.Idle? && sending == Some(Sending(ready.id, sent))
      requires ready.id in spool && spool[ready.id] == Ready(ready) && sent + count <= |ready.events|
      modifies this
      ensures Traced() && old(trace) <= trace
      ensures World() == old(World()).(sending := sending, log := log)
      ensures version == old(version) && effects == old(effects) + 1
      ensures ok <==> faults(old(effects)).NoFault?
      ensures sending == if ok then Some(Sending(ready.id, sent + count)) else None
      ensures log == old(log) + ready.events[sent..sent + count] || (!ok && log == old(log))
    {
      ghost var was := World();
      var fault := faults(effects);
      effects := effects + 1;
      if !fault.Lost? {
        log := log + ready.events[sent..sent + count];
        sending := Some(Sending(ready.id, sent + count));
      }
      ok := fault.NoFault?;
      if !ok {
        sending := None;
      }
      trace := TookOrCrashed(trace, was, World(), SendEvents(count));
    }

    /** Moves the segment from ready to delivered. */
    method MarkDelivered(ready: Segment) returns (r: Result<Segment, RisingError>)
      requires Traced() && worker.Idle? && sending == Some(Sending(ready.id, |ready.events|))
      requires ready.id in spool && spool[ready.id] == Ready(ready)
      modifies this
      ensures Traced() && old(trace) <= trace
      ensures World() == old(World()).(sending := None, spool := spool)
      ensures version == old(version) && effects == old(effects) + 1
      ensures r.Ok? <==> faults(old(effects)).NoFault?
      ensures r.Ok? ==> r.value == ready
      ensures spool == old(spool)[ready.id := Delivered(ready)] || (r.Err? && spool == old(spool))
    {
      ghost var was := World();
      var fault := faults(effects);
      effects := effects + 1;
      if !fault.Lost? {
        spool := spool[ready.id := Delivered(ready)];
      }
      sending := None;
      trace := TookOrCrashed(trace, was, World(), Action.MarkDelivered);
      return if fault.NoFault? then Ok(ready) else Err(SpoolFailure);
    }

    /** Sends every event of a ready segment, in requests of any size. */
    method SendAll(ready: Segment) returns (ok: bool)
      requires Traced() && worker.Idle? && sending == Some(Sending(ready.id, 0))
      requires ready.id in spool && spool[ready.id] == Ready(ready)
      modifies this
      ensures Traced() && old(trace) <= trace
      ensures World() == old(World()).(sending := sending, log := log)
      ensures version == old(version) && effects >= old(effects)
      ensures ok <==> Clean(old(effects))
      ensures sending == if ok then Some(Sending(ready.id, |ready.events|)) else None
      ensures old(log) <= log <= old(log) + ready.events
      ensures ok ==> log == old(log) + ready.events
    {
      ghost var was, acknowledged := World(), 0;
      var sent := 0;
      ok := true;
      while ok && sent < |ready.events|
        invariant 0 <= sent <= |ready.events| && acknowledged <= |ready.events|
        invariant World() == was.(sending := if ok then Some(Sending(ready.id, sent)) else None, log := log)
        invariant log == was.log + ready.events[..acknowledged] && (ok ==> acknowledged == sent)
        invariant Traced() && old(trace) <= trace
        invariant version == old(version) && effects >= old(effects)
        invariant ok <==> Clean(old(effects))
        decreases ok, |ready.events| - sent
      {
        ghost var before := log;
        var count :| 1 <= count <= |ready.events| - sent;
        SentSoFar(was.log, ready.events, sent, count);
        ok := Send(ready, sent, count);
        sent := sent + count;
        acknowledged := if log == before then acknowledged else sent;
      }
      SentIsPart(was.log, ready.events, acknowledged);
      assert ready.events[..|ready.events|] == ready.events;
    }

    /** Delivers a ready segment: every event first, then the mark. */
    method Deliver(ready: Segment) returns (r: Result<Segment, RisingError>)
      requires Resting(trace, World()) && Enabled(World(), BeginSend)
      requires PendingId(ScanOf(World())) == ready.id && spool[ready.id] == Ready(ready)
      modifies this
      ensures Traced() && old(trace) <= trace
      ensures World() == old(World()).(spool := spool, log := log)
      ensures version == old(version) && effects >= old(effects)
      ensures r.Ok? <==> Clean(old(effects))
      ensures r.Ok? ==> r.value == ready
      ensures old(log) <= log <= old(log) + ready.events
      ensures spool == old(spool)[ready.id := Delivered(ready)] || (r.Err? && spool == old(spool))
      ensures spool != old(spool) ==> log == old(log) + ready.events
    {
      ghost var was := World();
      sending := Some(Sending(ready.id, 0));
      ghost var begun := World();
      trace := TookOrCrashed(trace, was, begun, BeginSend);
      var ok := SendAll(ready);
      if !ok {
        return Err(DeliveryFailure);
      }
      r := MarkDelivered(ready);
    }

    /** Deletes one delivered segment. */
    method CompactDelivered(delivered: Segment) returns (r: Result<(), RisingError>)
      requires Resting(trace, World()) && Enabled(World(), Compact(delivered.id)) && spool[delivered.id] == Delivered(delivered)
      modifies this
      ensures Traced() && old(trace) <= trace
      ensures World() == old(World()).(spool := spool)
      ensures version == old(version) && effects == old(effects) + 1
      ensures r.Ok? <==> faults(old(effects)).NoFault?
      ensures spool == old(spool) - {delivered.id} || (r.Err? && spool == old(spool))
    {
      ghost var was := World();
      var fault := faults(effects);
      effects := effects + 1;
      if !fault.Lost? {
        spool := spool - {delivered.id};
      }
      trace := TookOrCrashed(trace, was, World(), Compact(delivered.id));
      return if fault.NoFault? then Ok(()) else Err(SpoolFailure);
    }

    // ---- the steps of a reconciliation ------------------------------------------------------

    /** Drops the leading references whose segments are receipted and gone. */
    method PruneCompactedPrefix(stored: Stored) returns (r: Result<Stored, RisingError>)
      requires Resting(trace, World()) && Current(stored)
      requires ReceiptedAreGone(ScanOf(World()), spool)
      modifies this
      ensures Traced() && old(trace) <= trace
      ensures World() == old(World()).(store := state) && effects >= old(effects) && state.Some?
      ensures r.Ok? <==> Clean(old(effects))
      ensures r.Ok? ==>
        && Current(r.value) && PrunedScan(ScanOf(old(World()))).Ok?
        && r.value.value == stored.value.(scan := Some(PrunedScan(ScanOf(old(World()))).value))
    {
      var scan := stored.value.scan.value;
      var removable := Removable(scan.segments, scan.deliveredThrough);
      if removable == 0 {
        return Ok(stored);
      }
      PruneAllowed(trace, World());
      r := Advance(stored, stored.value.(scan := Some(PrunedScan(scan).value)), Prune);
    }

    /** Writes the receipt for the first pending reference, compacts its segment and prunes it. */
    method SettleFirst(stored: Stored, delivered: Segment) returns (r: Result<Stored, RisingError>)
      requires Resting(trace, World()) && Current(stored)
      requires NextPending(ScanOf(World())) == 0 && ScanOf(World()).segments != []
      requires ScanOf(World()).deliveredThrough < MAX_U64
      requires ScanOf(World()).segments[0].segmentId == delivered.id
      requires ScanOf(World()).segments[0].sequence == ScanOf(World()).deliveredThrough + 1
      requires delivered.id in spool && spool[delivered.id] == Delivered(delivered)
      requires ReceiptedAreGone(ReceiptedScan(ScanOf(World())), spool - {delivered.id})
      modifies this
      ensures Traced() && old(trace) <= trace
      ensures World() == old(World()).(store := state, spool := spool) && effects >= old(effects) && state.Some?
      ensures r.Ok? <==> Clean(old(effects))
      ensures r.Ok? ==>
        && Current(r.value) && spool == old(spool) - {delivered.id}
        && PrunedScan(ReceiptedScan(ScanOf(old(World())))).Ok?
        && r.value.value == stored.value.(scan := Some(PrunedScan(ReceiptedScan(ScanOf(old(World())))).value))
    {
      ReceiptAllowed(World());
      var receipted :- Advance(stored, WithReceipt(stored.value), Receipt);
      CompactFirstAllowed(World(), delivered.id);
      var _ :- CompactDelivered(delivered);
      r := PruneCompactedPrefix(receipted);
    }

    /** The delivered copy of a pending segment: the sink is asked only for one that is still ready. */
    method DeliverPending(located: Located) returns (r: Result<Segment, RisingError>)
      requires Resting(trace, World()) && HasPending(ScanOf(World()))
      requires PendingId(ScanOf(World())) == located.segment.id
      requires located.segment.id in spool && spool[located.segment.id] == located
      modifies this
      ensures Traced() && old(trace) <= trace
      ensures World() == old(World()).(spool := spool, log := log)
      ensures version == old(version) && effects >= old(effects)
      ensures r.Ok? <==> Clean(old(effects))
      ensures old(log) <= log <= old(log) + UnsentOf(located.segment.id, old(spool))
      ensures r.Ok? ==>
        && r.value == located.segment
        && log == old(log) + UnsentOf(located.segment.id, old(spool))
        && spool == old(spool)[located.segment.id := Delivered(located.segment)]
    {
      match located {
        case Ready(ready) => r := Deliver(ready);
        case Delivered(delivered) =>
          assert spool == spool[delivered.id := Delivered(delivered)];
          return Ok(delivered);
      }
    }

    /** One round of the delivery loop: the first pending segment is delivered, receipted and gone. */
    method DrainFirst(stored: Stored, pending: map<U64, Located>) returns (r: Result<Stored, RisingError>)
      requires Resting(trace, World()) && Current(stored)
      requires Drains(ScanOf(World()), spool, pending, None) && ScanOf(World()).segments != []
      requires ScanOf(World()).deliveredThrough < MAX_U64
      modifies this
      ensures Traced() && old(trace) <= trace
      ensures World() == old(World()).(store := state, spool := spool, log := log) && effects >= old(effects) && state.Some?
      ensures r.Ok? <==> Clean(old(effects))
      ensures old(log) <= log <= old(log) + Unsent(ScanOf(old(World())).segments, old(spool))
      ensures r.Ok? ==>
        && Current(r.value) && Resting(trace, World())
        && r.value.value == stored.value.(scan := Some(ScanOf(World())))
        && Rounds(ScanOf(old(World())), ScanOf(World()))
        && Drains(ScanOf(World()), spool, pending - {ScanOf(old(World())).deliveredThrough + 1}, None)
        && log + Unsent(ScanOf(World()).segments, spool) == old(log) + Unsent(ScanOf(old(World())).segments, old(spool))
    {
      ghost var was, start := World(), trace;
      var scan := stored.value.scan.value;
      FirstPending(trace, was, pending);
      var located := pending[scan.deliveredThrough + 1];
      var id := located.segment.id;
      UnsentSplits(scan.segments, was.spool);
      var sent := DeliverPending(located);
      SentAndLeft(was.log, UnsentOf(id, was.spool), Unsent(scan.segments[1..], was.spool), log);
      var delivered :- sent;
      ghost var marked := spool;
      RoundAllowed(start, was, pending, marked);
      r := SettleFirst(stored, delivered);
      RoundEnds(start, was, pending, marked);
    }

    /** Compacts the copies that already have a receipt. */
    method CompactReceipted(receipted: seq<Segment>) returns (r: Result<(), RisingError>)
      requires Resting(trace, World())
      requires PlansReceipted(ScanOf(World()), spool, |ScanOf(World()).segments|, receipted)
      modifies this
      ensures Traced() && old(trace) <= trace
      ensures World() == old(World()).(spool := spool)
      ensures version == old(version) && effects >= old(effects)
      ensures r.Ok? <==> Clean(old(effects))
      ensures r.Ok? ==> spool == Without(old(spool), receipted)
    {
      ghost var was := World();
      WithoutNone(was.spool);
      assert receipted[..0] == [];
      for k := 0 to |receipted|
        invariant Traced() && old(trace) <= trace
        invariant World() == was.(spool := Without(was.spool, receipted[..k]))
        invariant version == old(version) && effects >= old(effects) && Clean(old(effects))
      {
        CompactPlanned(World(), was.spool, receipted, k);
        WithoutMore(was.spool, receipted, k);
        var _ :- CompactDelivered(receipted[k]);
      }
      assert receipted[..|receipted|] == receipted;
      return Ok(());
    }

    /** Gives the page that a crash left in the spool its reference. */
    method AdoptPlanned(stored: Stored, pending: map<U64, Located>, orphan: Option<Segment>)
      returns (r: Result<(Stored, map<U64, Located>), RisingError>)
      requires Resting(trace, World()) && Current(stored)
      requires Drains(ScanOf(World()), spool, pending, orphan)
      modifies this
      ensures Traced() && old(trace) <= trace
      ensures World() == old(World()).(store := state) && effects >= old(effects) && state.Some?
      ensures r.Ok? <==> Clean(old(effects)) && Adoptable(ScanOf(old(World())), orphan)
      ensures r.Ok? ==>
        && Current(r.value.0) && Resting(trace, World()) && Extends(stored.value, r.value.0.value, orphan)
        && Drains(ScanOf(World()), spool, r.value.1, None)
        && Unsent(ScanOf(World()).segments, spool) == Unsent(ScanOf(old(World())).segments, spool) + EventsOf(orphan)
    {
      if orphan.None? {
        return Ok((stored, pending));
      }
      ghost var was, start, scan := World(), trace, ScanOf(World());
      OrphanAwaits(trace, was, orphan.value);
      AdoptionNeedsRoom(stored.value, scan, orphan.value);
      var next :- AdoptOrphan(stored.value, orphan.value);
      AdoptAllowed(trace, was, orphan.value);
      AdoptedExtends(stored.value, scan, orphan.value);
      AdoptLeavesPlan(scan, spool, pending, orphan.value);
      AdoptLeavesUnsent(scan, spool, orphan.value);
      var adopted :- Advance(stored, next, Adopt(orphan.value.id));
      var sequence := SegmentCount(adopted.value.scan.value);
      return Ok((adopted, pending[sequence := Ready(orphan.value)]));
    }

    /** The delivery loop between two rounds; `total` is the log once everything is sent. */
    ghost predicate Draining(was: World, first: InputState, stored: Stored, pending: map<U64, Located>, total: seq<Row>)
      reads this
    {
      && Resting(trace, World()) && Current(stored)
      && World() == was.(store := state, spool := spool, log := log)
      && Drains(ScanOf(World()), spool, pending, None) && Drained(first, stored.value)
      && was.log <= log && log + Unsent(ScanOf(World()).segments, spool) == total
    }

    /** One more round. */
    method DrainNext(ghost was: World, ghost first: InputState, stored: Stored, pending: map<U64, Located>, ghost total: seq<Row>)
      returns (r: Result<Stored, RisingError>)
      requires Draining(was, first, stored, pending, total)
      requires ScanOf(World()).deliveredThrough + 1 <= SegmentCount(ScanOf(World()))
      modifies this
      ensures Traced() && old(trace) <= trace && effects >= old(effects)
      ensures World() == was.(store := state, spool := spool, log := log) && state.Some?
      ensures r.Ok? <==> Clean(old(effects))
      ensures was.log <= log <= total
      ensures r.Ok? ==>
        && Draining(was, first, r.value, pending - {stored.value.scan.value.deliveredThrough + 1}, total)
        && |r.value.value.scan.value.segments| < |stored.value.scan.value.segments|
    {
      ReceiptsEnd(trace, World());
      r := DrainFirst(stored, pending);
      if r.Ok? {
        DrainedMore(first, stored.value, r.value.value);
      }
    }

    /** The delivery loop: every pending reference in turn, until none is left. */
    method DrainAll(first: Stored, plan: map<U64, Located>) returns (r: Result<Stored, RisingError>)
      requires Resting(trace, World()) && Current(first)
      requires Drains(ScanOf(World()), spool, plan, None)
      modifies this
      ensures Traced() && old(trace) <= trace
      ensures World() == old(World()).(store := state, spool := spool, log := log) && effects >= old(effects) && state.Some?
      ensures r.Ok? <==> Clean(old(effects))
      ensures old(log) <= log <= old(log) + Unsent(ScanOf(old(World())).segments, old(spool))
      ensures r.Ok? ==>
        && Current(r.value) && Resting(trace, World()) && Drained(first.value, r.value.value)
        && spool == map[] && AllReceipted(ScanOf(World())) && ScanOf(World()).segments == []
        && log == old(log) + Unsent(ScanOf(old(World())).segments, old(spool))
    {
      ghost var was := World();
      ghost var total := log + Unsent(ScanOf(was).segments, spool);
      var stored, pending := first, plan;
      while stored.value.scan.value.deliveredThrough + 1 <= SegmentCount(stored.value.scan.value)
        invariant Draining(was, first.value, stored, pending, total)
        invariant old(trace) <= trace && effects >= old(effects) && Clean(old(effects))
        decreases |stored.value.scan.value.segments|
      {
        var next :- DrainNext(was, first.value, stored, pending, total);
        pending := pending - {stored.value.scan.value.deliveredThrough + 1};
        stored := next;
      }
      ReceiptsEnd(trace, World());
      NothingLeft(trace, World(), pending);
      return Ok(stored);
    }

    /** Compacts what already has a receipt and prunes its references. */
    method CompactPrefix(first: Stored, plan: Plan) returns (r: Result<Stored, RisingError>)
      requires Resting(trace, World()) && Current(first)
      requires PlansFor(first.value, spool, plan)
      modifies this
      ensures Traced() && old(trace) <= trace
      ensures World() == old(World()).(store := state, spool := spool) && effects >= old(effects) && state.Some?
      ensures r.Ok? <==> Clean(old(effects))
      ensures r.Ok? ==>
        && Current(r.value) && Resting(trace, World()) && Pruned(first.value, r.value.value)
        && Drains(ScanOf(World()), spool, plan.pending, plan.orphan)
        && Unsent(ScanOf(World()).segments, spool) == Unsent(ScanOf(old(World())).segments, old(spool))
    {
      PrefixPrunes(trace, World(), plan);
      var _ :- CompactReceipted(plan.receipted);
      r := PruneCompactedPrefix(first);
    }

    /** Compacts, prunes, adopts and delivers, until nothing of the scan is retained. */
    method ReconcileDeliveryPrefix(first: Stored, plan: Plan) returns (r: Result<Stored, RisingError>)
      requires Resting(trace, World()) && Current(first)
      requires PlansFor(first.value, spool, plan)
      modifies this
      ensures Traced() && old(trace) <= trace
      ensures World() == old(World()).(store := state, spool := spool, log := log) && effects >= old(effects) && state.Some?
      ensures r.Ok? <==> Clean(old(effects)) && Adoptable(ScanOf(old(World())), plan.orphan)
      ensures old(log) <= log <= old(log) + (Unsent(ScanOf(old(World())).segments, old(spool)) + EventsOf(plan.orphan))
      ensures r.Ok? ==>
        && Current(r.value) && Resting(trace, World()) && Extends(first.value, r.value.value, plan.orphan)
        && spool == map[] && AllReceipted(ScanOf(World())) && ScanOf(World()).segments == []
        && log == old(log) + (Unsent(ScanOf(old(World())).segments, old(spool)) + EventsOf(plan.orphan))
    {
      var pruned :- CompactPrefix(first, plan);
      AdoptableAfterPruning(first.value, pruned.value, plan.orphan);
      var adopted :- AdoptPlanned(pruned, plan.pending, plan.orphan);
      r := DrainAll(adopted.0, adopted.1);
      if r.Ok? {
        ExtendsThrough(first.value, pruned.value, adopted.0.value, r.value.value, plan.orphan);
      }
    }

    /** Records the confirmation of a complete and fully receipted scan, unless it is there already. */
    method ConfirmOnce(stored: Stored) returns (r: Result<Stored, RisingError>)
      requires Resting(trace, World()) && Current(stored) && HasFullReceipt(ScanOf(World()))
      modifies this
      ensures Traced() && old(trace) <= trace
      ensures World() == old(World()).(store := state) && effects >= old(effects) && state.Some?
      ensures r.Ok? <==> Clean(old(effects))
      ensures r.Ok? ==>
        && Current(r.value) && Resting(trace, World())
        && r.value.value == stored.value.(coordinator := r.value.value.coordinator)
        && r.value.value.coordinator.generation == stored.value.coordinator.generation
        && r.value.value.coordinator.committed == stored.value.coordinator.committed
        && r.value.value.coordinator.active.value.delivery.Confirmed?
    {
      ConfirmAllowed(trace, World());
      if stored.value.coordinator.active.value.delivery.InProgress? {
        r := Advance(stored, WithConfirmation(stored.value).value, ConfirmDelivery);
      } else {
        r := Ok(stored);
      }
    }

    /** Commits a complete scan; an incomplete one needs its next page. */
    method FinishReconciledScan(stored: Stored) returns (r: Result<Reconciled, RisingError>)
      requires Resting(trace, World()) && Current(stored)
      requires spool == map[] && AllReceipted(ScanOf(World()))
      modifies this
      ensures Traced() && old(trace) <= trace
      ensures World() == old(World()).(store := state) && effects >= old(effects) && state.Some?
      ensures r.Ok? <==>
        && Clean(old(effects))
        && (ScanOf(old(World())).complete ==> stored.value.coordinator.generation < MAX_U64)
      ensures r.Ok? ==> Ends(stored.value, state, r.value)
    {
      var scan := stored.value.scan.value;
      if !scan.complete {
        return Ok(NeedsCollection(stored.value.coordinator.generation, scan.nextPage));
      }
      var confirmed :- ConfirmOnce(stored);
      CommitAllowed(trace, World());
      var next :- CommittedState(confirmed.value);
      AdvanceIsAMove(trace, World(), next);
      var committed :- Advance(confirmed, next, CommitScan);
      return Ok(Finished(committed.value.coordinator.generation, CommitAdvances(confirmed.value)));
    }

    // ---- what the coordinator offers --------------------------------------------------------

    /** Creates the state of a new input, or moves an idle one to the configured revision. */
    method EnsureInput() returns (r: Result<(), RisingError>)
      modifies this
      ensures World() == old(World()).(store := state) && effects >= old(effects)
      ensures r.Ok? <==> Clean(old(effects)) && Ensurable(old(World()))
      ensures old(state).Some? && old(state).value.identity != prepared.identity ==> r == Err(IdentityMigration)
      ensures !Ensurable(old(World())) ==> state == old(state)
      ensures old(state).Some? ==> state.Some?
      ensures r.Ok? ==> state == Some(
        if old(state).None? then InitialState(prepared)
        else if old(state).value.revision == prepared.revision then old(state).value
        else Activated(old(state).value, prepared.revision))
      ensures old(state).Some? && old(state).value.revision == prepared.revision ==>
        state == old(state) && version == old(version) && trace == old(trace) && effects == old(effects)
      ensures old(Traced()) && Quiet(old(World())) ==> Traced() && old(trace) <= trace
    {
      ghost var was := World();
      match state {
        case None =>
          if spool != map[] {
            return Err(InventoryConflict);
          }
          r := Write(InitialState(prepared), CreateState);
        case Some(current) =>
          if current.identity != prepared.identity {
            return Err(IdentityMigration);
          }
          if current.revision == prepared.revision {
            return Ok(());
          }
          if current.scan.Some? || current.coordinator.active.Some? || spool != map[] {
            return Err(ConfigurationActivation);
          }
          if current.configurationGeneration == MAX_U64 {
            return Err(StoreFailure);
          }
          r := Write(Activated(current, prepared.revision), Activate);
      }
    }

    /** The store's unconditional writes: a first state, or another revision for an idle input. */
    method Write(next: InputState, ghost a: Action) returns (r: Result<(), RisingError>)
      requires Quiet(World()) ==> Enabled(World(), a) && Effect(World(), a) == World().(store := Some(next))
      modifies this
      ensures World() == old(World()).(store := state) && effects == old(effects) + 1
      ensures r.Ok? <==> faults(old(effects)).NoFault?
      ensures r.Ok? ==> state == Some(next)
      ensures state == old(state) || state == Some(next)
      ensures old(Traced()) && Quiet(old(World())) ==> Traced() && old(trace) <= trace
    {
      ghost var was := World();
      var fault := faults(effects);
      effects := effects + 1;
      if !fault.Lost? {
        state, version := Some(next), version + 1;
      }
      if old(Traced()) && Quiet(was) {
        trace := TookOrCrashed(trace, was, World(), a);
      }
      return if fault.NoFault? then Ok(()) else Err(StoreFailure);
    }

    method LoadCurrent() returns (r: Result<Stored, RisingError>)
      ensures r.Ok? <==>
        state.Some? && state.value.identity == prepared.identity && state.value.revision == prepared.revision
      ensures r.Ok? ==> Current(r.value)
    {
      match state {
        case None => return Err(MissingState);
        case Some(current) =>
          if current.identity != prepared.identity {
            return Err(IdentityMigration);
          }
          if current.revision != prepared.revision {
            return Err(ConfigurationActivation);
          }
          return Ok(Stored(version, current));
      }
    }

    /** The plan for what is retained; a reachable inventory is never refused. */
    method LoadPlan(stored: Stored) returns (plan: Plan)
      requires Traced() && Current(stored)
      ensures PlansFor(stored.value, spool, plan)
    {
      InventoryIsAccepted(trace, World());
      var ready, delivered := ListSegments(spool);
      var planned := ValidateInventory(stored.value, ready, delivered);
      return planned.value;
    }

    /** Reconciles an open scan. */
    method ReconcileScan(stored: Stored) returns (r: Result<Reconciled, RisingError>)
      requires Resting(trace, World()) && Current(stored)
      modifies this
      ensures Traced() && old(trace) <= trace
      ensures World() == old(World()).(store := state, spool := spool, log := log) && effects >= old(effects) && state.Some?
      ensures r.Ok? <==>
        Clean(old(effects)) && HasRoom(stored.value, stored.value.scan.value, Orphan(stored.value.scan.value, old(spool)))
      ensures old(log) <= log <= old(log) + Outstanding(old(World()))
      ensures r.Ok? ==>
        && log == old(log) + Outstanding(old(World())) && spool == map[]
        && ReportsScan(stored.value, Orphan(stored.value.scan.value, old(spool)), state, r.value)
    {
      var plan := LoadPlan(stored);
      PlannedOrphanIsOrphan(ScanOf(World()), spool, plan.orphan);
      var drained :- ReconcileDeliveryPrefix(stored, plan);
      r := FinishReconciledScan(drained);
    }

    /**
     Reconciles what a crash left. Without faults it succeeds exactly when the counters have room;
     it then has sent every event of a ready segment once, and nothing of a delivered one, and
     retains nothing. A fault leaves a world it can be called on again.
     */
    method Reconcile() returns (r: Result<Reconciled, RisingError>)
      requires Traced() && Quiet(World())
      modifies this
      ensures Traced() && old(trace) <= trace
      ensures World() == old(World()).(store := state, spool := spool, log := log)
      ensures r.Ok? <==> Clean(old(effects)) && Room(old(World()))
      ensures state.Some? <==> old(state).Some?
      ensures old(log) <= log <= old(log) + Outstanding(old(World()))
      ensures r.Ok? ==>
        log == old(log) + Outstanding(old(World())) && spool == map[] && Reports(old(World()), state, r.value)
    {
      ScanMeansActive(trace, World());
      if state.None? {
        return Ok(Settled(INITIAL_CHECKPOINT_GENERATION));
      }
      var _ :- EnsureInput();
      var loaded := LoadCurrent();
      var stored := loaded.value;
      if stored.value.scan.None? {
        return Ok(Settled(stored.value.coordinator.generation));
      }
      r := ReconcileScan(stored);
    }

    // ---- collecting -------------------------------------------------------------------------

    /** An attempt id that differs from the one committed last. */
    method FreshAttemptId(last: Option<CommittedAttempt>, candidates: seq<AttemptId>)
      returns (r: Result<AttemptId, RisingError>)
      ensures r.Ok? <==> exists i :: 0 <= i < |candidates| && Differs(last, candidates[i])
      ensures r.Ok? ==> r.value in candidates && Differs(last, r.value)
    {
      for i := 0 to |candidates|
        invariant forall j :: 0 <= j < i ==> !Differs(last, candidates[j])
      {
        if Differs(last, candidates[i]) {
          return Ok(candidates[i]);
        }
      }
      return Err(AttemptIdentity);
    }

    /** Opens an attempt for an input that has none. */
    method OpenAttempt(stored: Stored, candidates: seq<AttemptId>) returns (r: Result<Stored, RisingError>)
      requires Traced() && Quiet(World()) && Current(stored) && Operable(World())
      modifies this
      ensures Traced() && old(trace) <= trace
      ensures World() == old(World()).(store := state) && effects >= old(effects) && state.Some?
      ensures r.Ok? <==> Clean(old(effects)) && CanOpen(stored.value, candidates)
      ensures r.Ok? ==> Current(r.value) && Resting(trace, World())
      ensures r.Ok? ==> Begins(stored.value, r.value.value, candidates)
    {
      ScanMeansActive(trace, World());
      if stored.value.coordinator.active.Some? {
        return Ok(stored);
      }
      var attemptId :- FreshAttemptId(stored.value.coordinator.last, candidates);
      StartAllowed(trace, World(), attemptId);
      assert Opened(stored.value, WithAttempt(stored.value, attemptId), attemptId);
      r := Advance(stored, WithAttempt(stored.value, attemptId), StartScan(attemptId));
    }

    /**
     The context of the next page, once nothing of an earlier page is retained. Reconciliation has
     to come first whenever a crash left work, so a page is never collected twice into the spool.
     */
    method StartOrResumePage(candidates: seq<AttemptId>) returns (r: Result<Option<PageContext>, RisingError>)
      requires Traced() && Quiet(World())
      modifies this
      ensures Traced() && old(trace) <= trace
      ensures World() == old(World()).(store := state, worker := worker) && effects >= old(effects)
      ensures r.Ok? <==> Clean(old(effects)) && CanAsk(old(World()), candidates)
      ensures r.Ok? ==> (r.value.Some? <==> spool == map[] && AsksForPage(Ensured(old(World()))))
      ensures r.Ok? && r.value.Some? ==>
        && spool == map[] && worker == Assigned(r.value.value)
        && WantsPage(World()) && r.value.value == ContextOf(state.value, ScanOf(World()))
        && EffectiveBound(r.value.value.request).Ok?
      ensures r.Ok? && r.value.Some? ==>
        && r.value.value.request == NextRequest(Ensured(old(World())))
        && Begins(Ensured(old(World())), state.value, candidates)
      ensures !(r.Ok? && r.value.Some?) ==> worker.Idle?
      ensures r.Ok? && r.value.None? ==> spool != map[] || (Scanning(World()) && !WantsPage(World()))
    {
      var _ :- EnsureInput();
      var loaded := LoadCurrent();
      var stored := loaded.value;
      r := AskForPage(stored, candidates);
    }

    /** Opens an attempt if there is none and hands out the page, once nothing is retained. */
    method AskForPage(stored: Stored, candidates: seq<AttemptId>) returns (r: Result<Option<PageContext>, RisingError>)
      requires Traced() && Quiet(World()) && Current(stored) && Operable(World())
      modifies this
      ensures Traced() && old(trace) <= trace
      ensures World() == old(World()).(store := state, worker := worker) && effects >= old(effects)
      ensures r.Ok? <==>
        && Clean(old(effects))
        && (spool == map[] ==>
              && CanOpen(stored.value, candidates)
              && (AsksForPage(stored.value) ==> EffectiveBound(NextRequest(stored.value)).Ok?))
      ensures r.Ok? ==> (r.value.Some? <==> spool == map[] && AsksForPage(stored.value))
      ensures r.Ok? && r.value.Some? ==>
        && worker == Assigned(r.value.value)
        && WantsPage(World()) && r.value.value == ContextOf(state.value, ScanOf(World()))
        && r.value.value.request == NextRequest(stored.value)
      ensures r.Ok? && r.value.Some? ==> Begins(stored.value, state.value, candidates)
      ensures !(r.Ok? && r.value.Some?) ==> worker.Idle?
      ensures r.Ok? && r.value.None? ==> spool != map[] || (Scanning(World()) && !WantsPage(World()))
    {
      var plan := LoadPlan(stored);
      if !CleanForCollection(plan) {
        UncleanMeansWork(trace, World(), plan);
        return Ok(None);
      }
      PlanIsClean(trace, World(), plan);
      var active :- OpenAttempt(stored, candidates);
      OpeningAsks(stored.value, active.value, candidates);
      r := HandOutPage(active);
    }

    /** Hands the next page of an open scan to a worker, if the scan wants one. */
    method HandOutPage(stored: Stored) returns (r: Result<Option<PageContext>, RisingError>)
      requires Resting(trace, World()) && Current(stored) && spool == map[]
      modifies this
      ensures Traced() && old(trace) <= trace
      ensures World() == old(World()).(worker := worker) && effects == old(effects)
      ensures r == (
        if !ScanWantsPage(stored.value) then Ok(None)
        else if EffectiveBound(RequestOf(stored.value, stored.value.scan.value)).Err? then Err(CursorRequestInvalid)
        else Ok(Some(ContextOf(stored.value, stored.value.scan.value))))
      ensures worker == if r.Ok? && r.value.Some? then Assigned(r.value.value) else Idle
      ensures r.Ok? && r.value.Some? ==> WantsPage(World())
    {
      if !ScanWantsPage(stored.value) {
        return Ok(None);
      }
      var scan := stored.value.scan.value;
      if EffectiveBound(RequestOf(stored.value, scan)).Err? {
        return Err(CursorRequestInvalid);
      }
      AssignAllowed(World());
      ghost var was := World();
      worker := Assigned(ContextOf(stored.value, scan));
      trace := TookOrCrashed(trace, was, World(), Assign);
      return Ok(Some(ContextOf(stored.value, scan)));
    }

    /** The worker's query: the next rows after the bound, as many as asked for. */
    method CollectPage(context: PageContext, maxRows: nat) returns (page: Page)
      requires Traced() && worker == Assigned(context) && maxRows >= 1
      modifies this
      ensures Traced() && old(trace) <= trace
      ensures World() == old(World()).(worker := Collected(context, page))
      ensures EffectiveBound(context.request).Ok?
      ensures page == Collect(source, EffectiveBound(context.request).value, context.request.committed, maxRows)
    {
      ghost var was := World();
      AssignedWantsPage(trace, was);
      page := Collect(source, EffectiveBound(context.request).value, context.request.committed, maxRows);
      worker := Collected(context, page);
      trace := TookOrCrashed(trace, was, World(), Action.CollectPage(maxRows));
    }

    /** Seals a collected page; the spool chooses an id it does not hold. */
    method SealPage(context: PageContext, page: Page, id: SegmentId) returns (r: Result<Segment, RisingError>)
      requires Traced() && worker == Collected(context, page)
      requires 0 < |page.rows| <= MAX_U64 && id !in spool
      requires state.Some? && state.value.scan.Some? ==> !Referenced(state.value.scan.value, id)
      modifies this
      ensures Traced() && old(trace) <= trace
      ensures World() == old(World()).(worker := Idle, spool := spool)
      ensures r.Ok? <==> faults(old(effects)).NoFault?
      ensures r.Ok? ==> r.value == Sealed(id, context, page)
      ensures spool == old(spool)[id := Ready(Sealed(id, context, page))] || (r.Err? && spool == old(spool))
    {
      ghost var was := World();
      AssignedWantsPage(trace, was);
      var fault := faults(effects);
      effects := effects + 1;
      var segment := Sealed(id, context, page);
      if !fault.Lost? {
        spool := spool[id := Ready(segment)];
      }
      worker := Idle;
      trace := TookOrCrashed(trace, was, World(), Action.SealPage(id));
      return if fault.NoFault? then Ok(segment) else Err(SpoolFailure);
    }

    /** Ends the scan on an empty page, without a segment. */
    method RecordEmptyCompletion(context: PageContext, page: Page) returns (r: Result<(), RisingError>)
      requires Traced() && worker == Collected(context, page)
      modifies this
      ensures Traced() && old(trace) <= trace
      ensures World() == old(World()).(store := state, worker := Idle)
      ensures r.Ok? <==>
        page == Page([], false, None, None) && faults(old(effects)).NoFault?
      ensures r.Ok? ==>
        && state.Some? && old(state).Some? && old(state).value.scan.Some?
        && Completes(old(state).value, state.value)
      ensures page != Page([], false, None, None) ==> state == old(state)
    {
      ghost var was := World();
      AssignedWantsPage(trace, was);
      if page != Page([], false, None, None) {
        worker := Idle;
        trace := TookOrCrashed(trace, was, World(), Crash);
        return Err(EmptyCompletionInvalid);
      }
      CompleteEmptyAllowed(trace, was);
      ScanMeansActive(trace, was);
      var _ := EnsureInput();
      var loaded := LoadCurrent();
      var stored := loaded.value;
      assert Completes(stored.value, CompletedEmpty(stored.value).value);
      var completed :- Advance(stored, CompletedEmpty(stored.value).value, CompleteEmpty);
      return Ok(());
    }
  }

  /**
   Crash convergence: from any point of any run, one reconciliation without faults ends with
   nothing retained, exactly when the counters have room; it sends what was ready and not yet
   marked delivered, and nothing else.
   */
  method RecoverAfterCrash(crashed: World, ghost trace: seq<World>) returns (next: World, r: Result<Reconciled, RisingError>)
    requires Trace(trace, crashed)
    ensures Reachable(next)
    ensures r.Ok? <==> Room(Effect(crashed, Crash))
    ensures r.Ok? ==>
      && next.spool == map[]
      && next.log == crashed.log + Outstanding(Effect(crashed, Crash))
      && Reports(Effect(crashed, Crash), next.store, r.value)
  {
    TraceStep(trace, crashed, Crash);
    var restarted := crashed.(worker := Idle, sending := None);
    var c := new Coordinator.Resume(restarted, trace + [restarted], _ => NoFault);
    r := c.Reconcile();
    next := c.World();
    assert Trace(c.trace, next);
  }
}
