/**
 The rising protocol of one input as a state machine. A world holds what survives a crash (state,
 spool, source, what the sink acknowledged) and what does not (the worker's page, the position
 inside a segment being sent). Every durable effect is one action; a crash may come between any two.
 */
module Protocol {
  import opened Wrappers
  import opened Cursors
  import opened Identity
  import opened Source
  import opened Spool
  import opened C = Checkpoint
  import opened DurableState
  import opened Rising

  datatype Worker =
    | Idle
    | Assigned(context: PageContext)
    | Collected(context: PageContext, page: Page)

  /** How many events of a ready segment the sink acknowledged in the current delivery. */
  datatype Sending = Sending(id: SegmentId, sent: nat)

  datatype World = World(
    prepared: Prepared,
    store: Option<InputState>,
    spool: Store,
    worker: Worker,
    sending: Option<Sending>,
    source: seq<Row>,
    log: seq<Row>)

  datatype Action =
    | Crash
    | Reconfigure(prepared: Prepared)
    | GrowSource(source: seq<Row>)
    | CreateState
    | Activate
    | StartScan(attemptId: AttemptId)
    | Assign
    | CollectPage(maxRows: nat)
    | SealPage(id: SegmentId)
    | CompleteEmpty
    | Adopt(id: SegmentId)
    | BeginSend
    | SendEvents(count: nat)
    | MarkDelivered
    | Receipt
    | Compact(id: SegmentId)
    | Prune
    | ConfirmDelivery
    | CommitScan

  /** The configured input is the stored one, at the revision the stored state is fenced to. */
  predicate Operable(w: World) {
    && w.store.Some?
    && w.store.value.identity == w.prepared.identity
    && w.store.value.revision == w.prepared.revision
  }

  predicate Scanning(w: World) {
    Operable(w) && w.store.value.scan.Some? && w.store.value.coordinator.active.Some?
  }

  /** Every retained segment was delivered, receipted and compacted, and the scan wants a page. */
  predicate WantsPage(w: World) {
    && Scanning(w)
    && var scan := w.store.value.scan.value;
    && w.spool == map[]
    && !scan.complete
    && w.store.value.coordinator.active.value.collection.InProgress?
    && w.store.value.coordinator.active.value.delivery.InProgress?
    && scan.deliveredThrough == SegmentCount(scan)
  }

  /** Index of the first reference without a receipt. */
  function NextPending(scan: ActiveScan): int {
    scan.deliveredThrough - scan.compactedThrough
  }

  predicate HasPending(scan: ActiveScan) {
    0 <= NextPending(scan) < |scan.segments|
  }

  function PendingId(scan: ActiveScan): SegmentId
    requires HasPending(scan)
  {
    scan.segments[NextPending(scan)].segmentId
  }

  /** The cursors up to which the source has been read for this input. */
  ghost predicate CollectedPosition(w: World, c: Cursor) {
    && w.store.Some?
    && (|| w.store.value.coordinator.committed == Some(c)
        || (w.store.value.scan.Some? && w.store.value.scan.value.resumeAfter == Some(c))
        || (exists id :: id in w.spool && w.spool[id].segment.metadata.resume == Some(c))
        || (w.worker.Collected? && w.worker.page.resume == Some(c)))
  }

  /** The source may change in any way beyond the positions already read, and not before them. */
  ghost predicate GrowsBeyondCollected(w: World, source: seq<Row>) {
    && Sorted(source)
    && forall c :: CollectedPosition(w, c) ==>
         && Through(source, Some(c)) == Through(w.source, Some(c))
         && source[..Through(source, Some(c))] == w.source[..Through(w.source, Some(c))]
  }

  /** No worker and no delivery is under way, so the coordinator may touch the durable state. */
  predicate Quiet(w: World) {
    w.worker.Idle? && w.sending.None?
  }

  ghost predicate Enabled(w: World, a: Action) {
    match a
    case Crash => true
    case Reconfigure(_) => true
    case GrowSource(source) => GrowsBeyondCollected(w, source)
    case CreateState => Quiet(w) && w.store.None? && w.spool == map[]
    case Activate =>
      && Quiet(w) && w.store.Some?
      && w.store.value.identity == w.prepared.identity && w.store.value.revision != w.prepared.revision
      && w.store.value.scan.None? && w.store.value.coordinator.active.None? && w.spool == map[]
      && w.store.value.configurationGeneration < MAX_U64
    case StartScan(attemptId) =>
      && Quiet(w) && Operable(w)
      && w.store.value.coordinator.active.None? && w.spool == map[]
      && StartAttempt(w.store.value.coordinator, StartFence(w.store.value, attemptId)).result.Ok?
    case Assign =>
      && Quiet(w) && WantsPage(w)
      && EffectiveBound(RequestOf(w.store.value, w.store.value.scan.value)).Ok?
    case CollectPage(maxRows) =>
      w.worker.Assigned? && maxRows >= 1 && EffectiveBound(w.worker.context.request).Ok?
    case SealPage(id) =>
      && w.worker.Collected? && 0 < |w.worker.page.rows| <= MAX_U64
      && id !in w.spool
      && (w.store.Some? && w.store.value.scan.Some? ==> !Referenced(w.store.value.scan.value, id))
    case CompleteEmpty =>
      && w.worker.Collected? && w.worker.page.rows == [] && w.sending.None?
      && WantsPage(w) && w.worker.context == ContextOf(w.store.value, w.store.value.scan.value)
      && CompletedEmpty(w.store.value).Ok?
    case Adopt(id) =>
      && Quiet(w) && Scanning(w)
      && id in w.spool && w.spool[id].Ready? && !Referenced(w.store.value.scan.value, id)
      && AdoptOrphan(w.store.value, w.spool[id].segment).Ok?
    case BeginSend =>
      && Quiet(w) && Scanning(w)
      && HasPending(w.store.value.scan.value)
      && PendingId(w.store.value.scan.value) in w.spool
      && w.spool[PendingId(w.store.value.scan.value)].Ready?
    case SendEvents(count) =>
      && w.sending.Some? && w.sending.value.id in w.spool
      && w.sending.value.sent + count <= |w.spool[w.sending.value.id].segment.events|
    case MarkDelivered =>
      && w.sending.Some? && w.sending.value.id in w.spool
      && w.sending.value.sent == |w.spool[w.sending.value.id].segment.events|
    case Receipt =>
      && Quiet(w) && Scanning(w)
      && w.store.value.scan.value.deliveredThrough < MAX_U64
      && HasPending(w.store.value.scan.value)
      && PendingId(w.store.value.scan.value) in w.spool
      && w.spool[PendingId(w.store.value.scan.value)].Delivered?
    case Compact(id) =>
      && Quiet(w) && Scanning(w)
      && id in w.spool && w.spool[id].Delivered?
      && var scan := w.store.value.scan.value;
      && exists i :: 0 <= i < |scan.segments| && scan.segments[i].segmentId == id && Receipted(scan, i)
    case Prune =>
      && Quiet(w) && Scanning(w)
      && var scan := w.store.value.scan.value;
      && PrunedScan(scan).Ok?
      && 0 < Removable(scan.segments, scan.deliveredThrough)
      && forall i :: 0 <= i < Removable(scan.segments, scan.deliveredThrough) ==> scan.segments[i].segmentId !in w.spool
    case ConfirmDelivery =>
      && Quiet(w) && Scanning(w)
      && HasFullReceipt(w.store.value.scan.value)
      && w.store.value.coordinator.active.value.delivery.InProgress?
      && WithConfirmation(w.store.value).Ok?
    case CommitScan =>
      && Quiet(w) && Scanning(w) && w.spool == map[]
      && HasFullReceipt(w.store.value.scan.value)
      && CommittedState(w.store.value).Ok?
  }

  function Put(w: World, state: InputState): World {
    w.(store := Some(state))
  }

  ghost function Effect(w: World, a: Action): World
    requires Enabled(w, a)
  {
    match a
    case Crash => w.(worker := Idle, sending := None)
    case Reconfigure(prepared) => w.(prepared := prepared, worker := Idle, sending := None)
    case GrowSource(source) => w.(source := source)
    case CreateState => Put(w, InitialState(w.prepared))
    case Activate => Put(w, Activated(w.store.value, w.prepared.revision))
    case StartScan(attemptId) => Put(w, WithAttempt(w.store.value, attemptId))
    case Assign => w.(worker := Assigned(ContextOf(w.store.value, w.store.value.scan.value)))
    case CollectPage(maxRows) =>
      var request := w.worker.context.request;
      w.(worker := Collected(
        w.worker.context,
        Collect(w.source, EffectiveBound(request).value, request.committed, maxRows)))
    case SealPage(id) =>
      w.(spool := w.spool[id := Ready(Sealed(id, w.worker.context, w.worker.page))], worker := Idle)
    case CompleteEmpty => Put(w, CompletedEmpty(w.store.value).value).(worker := Idle)
    case Adopt(id) => Put(w, AdoptOrphan(w.store.value, w.spool[id].segment).value)
    case BeginSend => w.(sending := Some(Sending(PendingId(w.store.value.scan.value), 0)))
    case SendEvents(count) =>
      var Sending(id, sent) := w.sending.value;
      w.(sending := Some(Sending(id, sent + count)),
         log := w.log + w.spool[id].segment.events[sent..sent + count])
    case MarkDelivered =>
      var id := w.sending.value.id;
      w.(spool := w.spool[id := Delivered(w.spool[id].segment)], sending := None)
    case Receipt => Put(w, WithReceipt(w.store.value))
    case Compact(id) => w.(spool := w.spool - {id})
    case Prune => Put(w, w.store.value.(scan := Some(PrunedScan(w.store.value.scan.value).value)))
    case ConfirmDelivery => Put(w, WithConfirmation(w.store.value).value)
    case CommitScan => Put(w, CommittedState(w.store.value).value)
  }

  ghost predicate StepsTo(w: World, next: World) {
    exists a :: Enabled(w, a) && Effect(w, a) == next
  }

  /** Before the first start: no state, an empty spool, nothing sent, any sorted source. */
  ghost predicate Initial(w: World) {
    && w.store.None? && w.spool == map[] && w.worker.Idle? && w.sending.None?
    && w.log == [] && Sorted(w.source)
  }

  /** A run: any number of actions, crashes included, in any order the guards allow. */
  ghost predicate Run(worlds: seq<World>) {
    && worlds != []
    && forall i {:trigger StepsTo(worlds[i], worlds[i + 1])} ::
         0 <= i < |worlds| - 1 ==> StepsTo(worlds[i], worlds[i + 1])
  }

  /** A run from the start that ends in `w`. */
  ghost predicate Trace(worlds: seq<World>, w: World) {
    Run(worlds) && Initial(worlds[0]) && worlds[|worlds| - 1] == w
  }

  lemma TraceOne(w: World)
    requires Initial(w)
    ensures Trace([w], w)
  {
  }

  lemma TraceStep(worlds: seq<World>, w: World, a: Action)
    requires Trace(worlds, w) && Enabled(w, a)
    ensures Trace(worlds + [Effect(w, a)], Effect(w, a))
  {
    var longer := worlds + [Effect(w, a)];
    forall i | 0 <= i < |longer| - 1
      ensures StepsTo(longer[i], longer[i + 1])
    {
      if i < |worlds| - 1 {
        assert longer[i] == worlds[i] && longer[i + 1] == worlds[i + 1];
      } else {
        assert longer[i] == w;
      }
    }
  }
}
