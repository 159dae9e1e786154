/** When the daemon may install another configuration under the rising protocol. */
module Reload {
  import opened Wrappers
  import opened Identity
  import opened Source
  import opened Spool
  import opened C = Checkpoint
  import opened DurableState
  import opened Rising
  import opened Protocol
  import opened Safety
  import opened Recovery
  import opened Reconcile
  import S = Schedule
  import G = Generations

  type Name = string

  /** The spool key of an input: the two kinds are hashed in separate domains, so they never meet. */
  datatype InputKey = BatchKey(name: Bytes) | RisingKey(inputId: Bytes)

  /** One prepared input: rising with an identity, or batch with a revision. */
  datatype Input = Input(rising: Option<Prepared>, key: InputKey, revision: Bytes, interval: nat, disabled: bool)

  /** A sealed batch segment: whose it is, and the revision it was collected under. */
  datatype BatchSegment = BatchSegment(key: InputKey, revision: Bytes, hasMetadata: bool)

  datatype Config = Config(text: Bytes)
  datatype Hec = Hec(endpoint: Bytes)

  datatype ReloadError = GenerationsExhausted
  datatype ReloadOutcome = Installed | Refused

  // ---- what a configuration says --------------------------------------------------------------

  function RisingId(input: Input): Option<Bytes> {
    if input.rising.Some? then Some(input.rising.value.identity.inputId) else None
  }

  function RisingIds(inputs: map<Name, Input>): set<Bytes> {
    set name | name in inputs && inputs[name].rising.Some? :: inputs[name].rising.value.identity.inputId
  }

  function RisingNames(inputs: map<Name, Input>): set<Name> {
    set name | name in inputs && inputs[name].rising.Some?
  }

  function RisingKeys(inputs: map<Name, Input>): set<InputKey> {
    set name | name in inputs && inputs[name].rising.Some? :: inputs[name].key
  }

  /** The revision under which replayed batch segments of an input must have been collected. */
  predicate Fenced(inputs: map<Name, Input>, key: InputKey) {
    exists name :: name in inputs && inputs[name].rising.None? && inputs[name].key == key
  }

  predicate FencedTo(inputs: map<Name, Input>, key: InputKey, revision: Bytes) {
    exists name :: name in inputs && inputs[name].rising.None? && inputs[name].key == key && inputs[name].revision == revision
  }

  /** Names own distinct identities and distinct keys, each of its kind. */
  predicate WellKeyed(inputs: map<Name, Input>) {
    && (forall name :: name in inputs ==> inputs[name].key.RisingKey? == inputs[name].rising.Some?)
    && (forall a, b :: a in inputs && b in inputs && a != b ==> inputs[a].key != inputs[b].key)
    && (forall a, b :: a in inputs && b in inputs && a != b && inputs[a].rising.Some? ==> RisingId(inputs[a]) != RisingId(inputs[b]))
  }

  /** A segment may be replayed: its fence is current, or it is the rising coordinator's to handle. */
  predicate Replayable(inputs: map<Name, Input>, segment: BatchSegment) {
    if Fenced(inputs, segment.key) then FencedTo(inputs, segment.key, segment.revision)
    else segment.key in RisingKeys(inputs)
  }

  /** No collection mode and no rising identity changes under a name both configurations know. */
  predicate SameIdentities(current: map<Name, Input>, candidate: map<Name, Input>) {
    forall name :: name in current && name in candidate ==> RisingId(current[name]) == RisingId(candidate[name])
  }

  function BatchRevisions(inputs: map<Name, Input>): map<Name, Bytes> {
    map name | name in inputs && inputs[name].rising.None? :: inputs[name].revision
  }

  function Runnable(inputs: map<Name, Input>): set<Name> {
    set name | name in inputs && !inputs[name].disabled
  }

  /** An open scan whose last page is not among what is retained: after a reconciliation it waits for a page. */
  ghost predicate LeavesOpen(w: World) {
    && w.store.Some? && w.store.value.scan.Some?
    && !w.store.value.scan.value.complete
    && var orphan := Orphan(w.store.value.scan.value, w.spool);
       orphan.Some? ==> orphan.value.metadata.truncated
  }

  lemma ReportMeans(w: World, next: Option<InputState>, outcome: Reconciled)
    requires Reports(w, next, outcome)
    ensures outcome.NeedsCollection? <==> next.Some? && next.value.scan.Some?
    ensures outcome.NeedsCollection? <==> LeavesOpen(w)
  {
  }

  ghost predicate FaultFree(faults: nat -> Fault) {
    forall n :: faults(n).NoFault?
  }

  ghost predicate Undisturbed(faults: Bytes -> nat -> Fault) {
    forall id :: FaultFree(faults(id))
  }

  /** An input with nothing open and nothing retained. */
  predicate AtRest(w: World) {
    w.spool == map[] && (w.store.Some? ==> w.store.value.scan.None? && w.store.value.coordinator.active.None?)
  }

  function Halted(w: World): World {
    w.(worker := Idle, sending := None)
  }

  lemma HaltedIsReachable(w: World)
    requires Reachable(w)
    ensures Reachable(Halted(w))
  {
    var trace :| Trace(trace, w);
    TraceStep(trace, w, Crash);
  }

  lemma ReconfiguredIsReachable(w: World, prepared: Prepared)
    requires Reachable(w) && Quiet(w)
    ensures Reachable(w.(prepared := prepared))
  {
    var trace :| Trace(trace, w);
    TraceStep(trace, w, Reconfigure(prepared));
  }

  lemma NoScanMeansAtRest(w: World)
    requires Reachable(w) && w.spool == map[] && (w.store.Some? ==> w.store.value.scan.None?)
    ensures AtRest(w)
  {
    var trace :| Trace(trace, w);
    ScanMeansActive(trace, w);
  }

  lemma NeverStoredMeansAtRest(w: World)
    requires Reachable(w) && w.store.None?
    ensures AtRest(w)
  {
    var trace :| Trace(trace, w);
    ScanMeansActive(trace, w);
  }

  /** Reconciles one input, without faults exactly if it has room; its state is neither created nor dropped. */
  method ReconcileInput(w: World, faults: nat -> Fault) returns (next: World, r: Result<bool, RisingError>)
    requires Reachable(w) && Quiet(w)
    ensures Reachable(next) && Quiet(next) && next.prepared == w.prepared
    ensures SameIdentity(w, next)
    ensures r.Ok? ==> next.spool == map[] && (r.value <==> next.store.Some? && next.store.value.scan.Some?)
    ensures r.Ok? ==> Room(w) && (r.value <==> LeavesOpen(w))
    ensures FaultFree(faults) ==> (r.Ok? <==> Room(w))
  {
    ghost var trace :| Trace(trace, w);
    var c := new Coordinator.Resume(w, trace, faults);
    var outcome := c.Reconcile();
    next := c.World();
    if w.store.Some? {
      assert c.trace[|trace| - 1] == trace[|trace| - 1];
      IdentityIsFixed(c.trace, |trace| - 1, |c.trace| - 1);
    }
    if outcome.Err? {
      return next, Err(outcome.error);
    }
    ReportMeans(w, c.state, outcome.value);
    return next, Ok(outcome.value.NeedsCollection?);
  }

  // ---- the daemon -----------------------------------------------------------------------------

  /** The durable side of every rising identity, with state or without. */
  type Worlds = map<Bytes, World>

  ghost predicate Sound(worlds: Worlds) {
    forall id :: id in worlds ==> Reachable(worlds[id])
  }

  predicate Stopped(worlds: Worlds) {
    forall id :: id in worlds ==> Quiet(worlds[id])
  }

  function WorldId(inputs: map<Name, Input>, name: Name): Bytes
    requires name in inputs && inputs[name].rising.Some?
  {
    inputs[name].rising.value.identity.inputId
  }

  predicate IsRising(inputs: map<Name, Input>, name: Name) {
    name in inputs && inputs[name].rising.Some?
  }

  /** Every persisted identity is configured, and each world runs what is configured. */
  ghost predicate Configured(worlds: Worlds, inputs: map<Name, Input>) {
    && (forall name :: IsRising(inputs, name) ==>
          WorldId(inputs, name) in worlds && worlds[WorldId(inputs, name)].prepared == inputs[name].rising.value)
    && (forall id :: id in worlds && worlds[id].store.Some? ==> id in RisingIds(inputs))
  }

  method HaltAll(worlds: Worlds) returns (halted: Worlds)
    requires Sound(worlds)
    ensures halted.Keys == worlds.Keys && Sound(halted) && Stopped(halted)
    ensures forall id :: id in worlds ==> halted[id] == Halted(worlds[id])
  {
    halted := map id | id in worlds :: Halted(worlds[id]);
    forall id | id in halted
      ensures Reachable(halted[id])
    {
      HaltedIsReachable(worlds[id]);
    }
  }

  /** Nothing of the input is retained; its scan is open only if it waits for a page. */
  predicate Reconciles(w: World, needsCollection: bool) {
    w.spool == map[] && (needsCollection <==> w.store.Some? && w.store.value.scan.Some?)
  }

  lemma OneIdEach(inputs: map<Name, Input>, a: Name, b: Name)
    requires WellKeyed(inputs) && IsRising(inputs, a) && IsRising(inputs, b) && a != b
    ensures WorldId(inputs, a) != WorldId(inputs, b)
  {
    assert RisingId(inputs[a]) != RisingId(inputs[b]);
  }

  /** The worlds a reload works on: sound, with no worker, and running what is configured. */
  ghost predicate Managed(worlds: Worlds, inputs: map<Name, Input>) {
    Sound(worlds) && Stopped(worlds) && Configured(worlds, inputs)
  }

  lemma UpdateKeepsManaged(worlds: Worlds, inputs: map<Name, Input>, id: Bytes, after: World)
    requires Managed(worlds, inputs) && id in worlds
    requires Reachable(after) && Quiet(after) && after.prepared == worlds[id].prepared
    requires SameIdentity(worlds[id], after)
    ensures Managed(worlds[id := after], inputs) && SamePersisted(worlds, worlds[id := after])
  {
  }

  /** The same inputs have state, and no identity changed. */
  predicate SameIdentity(w: World, next: World) {
    && (next.store.Some? <==> w.store.Some?)
    && (next.store.Some? ==> next.store.value.identity == w.store.value.identity)
  }

  ghost predicate SamePersisted(worlds: Worlds, next: Worlds) {
    next.Keys == worlds.Keys && forall id :: id in worlds ==> SameIdentity(worlds[id], next[id])
  }

  /** The inputs in `done` are reconciled, with these ones waiting for a page. */
  ghost predicate Done(worlds: Worlds, inputs: map<Name, Input>, done: set<Name>, needsCollection: set<Name>) {
    forall name :: name in done ==>
      && IsRising(inputs, name) && WorldId(inputs, name) in worlds
      && Reconciles(worlds[WorldId(inputs, name)], name in needsCollection)
  }

  lemma DoneMore(
      worlds: Worlds, inputs: map<Name, Input>, done: set<Name>, needsCollection: set<Name>, name: Name, after: World, needs: bool)
    requires WellKeyed(inputs) && IsRising(inputs, name) && name !in done && needsCollection <= done
    requires Done(worlds, inputs, done, needsCollection) && Reconciles(after, needs)
    ensures Done(
              worlds[WorldId(inputs, name) := after], inputs, done + {name},
              if needs then needsCollection + {name} else needsCollection)
  {
    forall other | other in done
      ensures WorldId(inputs, other) != WorldId(inputs, name)
    {
      OneIdEach(inputs, name, other);
    }
  }

  lemma SamePersistedOn(worlds: Worlds, middle: Worlds, next: Worlds)
    requires SamePersisted(worlds, middle) && SamePersisted(middle, next)
    ensures SamePersisted(worlds, next)
  {
  }

  /** The inputs in `done` had room, and these ones of them were to wait for a page. */
  ghost predicate Foreseen(worlds: Worlds, inputs: map<Name, Input>, done: set<Name>, needsCollection: set<Name>) {
    forall name :: name in done ==>
      && IsRising(inputs, name) && WorldId(inputs, name) in worlds
      && Room(worlds[WorldId(inputs, name)])
      && (name in needsCollection <==> LeavesOpen(worlds[WorldId(inputs, name)]))
  }

  ghost predicate AllRoom(worlds: Worlds, inputs: map<Name, Input>) {
    forall name :: IsRising(inputs, name) && WorldId(inputs, name) in worlds ==> Room(worlds[WorldId(inputs, name)])
  }

  ghost predicate NoneLeavesOpen(worlds: Worlds, inputs: map<Name, Input>) {
    forall name :: IsRising(inputs, name) && WorldId(inputs, name) in worlds ==> !LeavesOpen(worlds[WorldId(inputs, name)])
  }

  /** The worlds of the inputs still to come are as they were. */
  predicate Untouched(worlds: Worlds, next: Worlds, inputs: map<Name, Input>, rest: set<Name>) {
    forall name :: name in rest ==>
      && IsRising(inputs, name) && WorldId(inputs, name) in worlds && WorldId(inputs, name) in next
      && next[WorldId(inputs, name)] == worlds[WorldId(inputs, name)]
  }

  lemma UntouchedLess(worlds: Worlds, now: Worlds, inputs: map<Name, Input>, rest: set<Name>, name: Name, after: World)
    requires WellKeyed(inputs) && Untouched(worlds, now, inputs, rest) && name in rest
    ensures Untouched(worlds, now[WorldId(inputs, name) := after], inputs, rest - {name})
  {
    forall other | other in rest - {name}
      ensures WorldId(inputs, other) != WorldId(inputs, name)
    {
      OneIdEach(inputs, name, other);
    }
  }

  lemma ForeseenMeans(worlds: Worlds, inputs: map<Name, Input>, needsCollection: set<Name>)
    requires Foreseen(worlds, inputs, RisingNames(inputs), needsCollection) && needsCollection <= RisingNames(inputs)
    ensures AllRoom(worlds, inputs)
    ensures needsCollection == {} <==> NoneLeavesOpen(worlds, inputs)
  {
    assert forall name :: IsRising(inputs, name) <==> name in RisingNames(inputs);
    if needsCollection != {} {
      var name :| name in needsCollection;
      assert LeavesOpen(worlds[WorldId(inputs, name)]);
    }
  }

  /** A reconciliation of the backlog with the inputs in `rest` still to come. */
  ghost predicate Underway(worlds: Worlds, next: Worlds, inputs: map<Name, Input>, rest: set<Name>, needsCollection: set<Name>) {
    && Managed(next, inputs) && SamePersisted(worlds, next)
    && Untouched(worlds, next, inputs, rest)
    && Foreseen(worlds, inputs, RisingNames(inputs) - rest, needsCollection)
    && rest <= RisingNames(inputs) && needsCollection <= RisingNames(inputs) - rest
    && Done(next, inputs, RisingNames(inputs) - rest, needsCollection)
  }

  lemma BacklogBegins(worlds: Worlds, inputs: map<Name, Input>)
    requires Managed(worlds, inputs)
    ensures Underway(worlds, worlds, inputs, RisingNames(inputs), {})
  {
  }

  lemma BacklogEnds(worlds: Worlds, next: Worlds, inputs: map<Name, Input>, needsCollection: set<Name>)
    requires Underway(worlds, next, inputs, {}, needsCollection)
    ensures Managed(next, inputs) && SamePersisted(worlds, next)
    ensures Done(next, inputs, RisingNames(inputs), needsCollection)
    ensures Foreseen(worlds, inputs, RisingNames(inputs), needsCollection) && AllRoom(worlds, inputs)
    ensures needsCollection == {} <==> NoneLeavesOpen(worlds, inputs)
  {
    assert RisingNames(inputs) - {} == RisingNames(inputs);
    ForeseenMeans(worlds, inputs, needsCollection);
  }

  /** One more input: the worlds stay managed, and on success it counts as done. */
  method ReconcileNext(
      ghost worlds: Worlds, now: Worlds, inputs: map<Name, Input>, faults: Bytes -> nat -> Fault,
      rest: set<Name>, needsCollection: set<Name>, name: Name)
    returns (next: Worlds, r: Result<set<Name>, RisingError>)
    requires Underway(worlds, now, inputs, rest, needsCollection) && WellKeyed(inputs) && name in rest
    ensures Managed(next, inputs) && SamePersisted(worlds, next)
    ensures r.Ok? ==> Underway(worlds, next, inputs, rest - {name}, r.value)
    ensures Undisturbed(faults) && r.Err? ==> !AllRoom(worlds, inputs)
  {
    var id := WorldId(inputs, name);
    var after, outcome := ReconcileInput(now[id], faults(id));
    UpdateKeepsManaged(now, inputs, id, after);
    next := now[id := after];
    SamePersistedOn(worlds, now, next);
    if outcome.Err? {
      return next, Err(outcome.error);
    }
    UntouchedLess(worlds, now, inputs, rest, name, after);
    DoneMore(now, inputs, RisingNames(inputs) - rest, needsCollection, name, after, outcome.value);
    assert RisingNames(inputs) - (rest - {name}) == RisingNames(inputs) - rest + {name};
    return next, Ok(if outcome.value then needsCollection + {name} else needsCollection);
  }

  /**
   Reconciles every rising input as configured; the first failure ends it. Without faults it succeeds
   exactly if each of them has room, and no input waits for a page exactly if none leaves its scan open.
   */
  method ReconcileBacklog(worlds: Worlds, inputs: map<Name, Input>, faults: Bytes -> nat -> Fault)
    returns (next: Worlds, r: Result<set<Name>, RisingError>)
    requires Managed(worlds, inputs) && WellKeyed(inputs)
    ensures Managed(next, inputs) && SamePersisted(worlds, next)
    ensures r.Ok? ==> Done(next, inputs, RisingNames(inputs), r.value)
    ensures r.Ok? ==> Foreseen(worlds, inputs, RisingNames(inputs), r.value) && AllRoom(worlds, inputs)
    ensures r.Ok? ==> (r.value == {} <==> NoneLeavesOpen(worlds, inputs))
    ensures Undisturbed(faults) ==> (r.Ok? <==> AllRoom(worlds, inputs))
  {
    var rest, needsCollection: set<Name> := RisingNames(inputs), {};
    next := worlds;
    BacklogBegins(worlds, inputs);
    while rest != {}
      invariant Underway(worlds, next, inputs, rest, needsCollection)
      decreases |rest|
    {
      var name :| name in rest;
      next, r := ReconcileNext(worlds, next, inputs, faults, rest, needsCollection, name);
      if r.Err? {
        return;
      }
      rest, needsCollection := rest - {name}, r.value;
    }
    BacklogEnds(worlds, next, inputs, needsCollection);
    return next, Ok(needsCollection);
  }

  // ---- the batch side of the spool ------------------------------------------------------------

  datatype Batches = Batches(ready: seq<BatchSegment>, delivered: seq<BatchSegment>)

  predicate AllReplayable(inputs: map<Name, Input>, ready: seq<BatchSegment>) {
    forall i :: 0 <= i < |ready| ==> Replayable(inputs, ready[i])
  }

  /** An acknowledged segment is the coordinator's, or carries no recovery metadata. */
  predicate AllCompactable(inputs: map<Name, Input>, delivered: seq<BatchSegment>) {
    forall i :: 0 <= i < |delivered| ==> delivered[i].key in RisingKeys(inputs) || !delivered[i].hasMetadata
  }

  predicate CanReplay(pending: seq<BatchSegment>, hec: Option<Hec>, stops: nat -> bool) {
    && (pending != [] ==> hec.Some?)
    && forall i :: 0 <= i < |pending| ==> !stops(i)
  }

  /** When a drain succeeds: nothing is fenced elsewhere, nothing is out of place and nothing stops it. */
  predicate CanDrain(batches: Batches, inputs: map<Name, Input>, hec: Option<Hec>, stops: nat -> bool) {
    && AllReplayable(inputs, batches.ready) && AllCompactable(inputs, batches.delivered)
    && CanReplay(Fencing(inputs, batches.ready, true), hec, stops)
  }

  /** The segments of one kind of key, in order. */
  function Fencing(inputs: map<Name, Input>, ready: seq<BatchSegment>, fenced: bool): seq<BatchSegment> {
    if ready == [] then []
    else
      var n := |ready| - 1;
      Fencing(inputs, ready[..n], fenced) + if Fenced(inputs, ready[n].key) == fenced then [ready[n]] else []
  }

  lemma {:induction false} FencingKeeps(inputs: map<Name, Input>, ready: seq<BatchSegment>, fenced: bool)
    ensures forall x :: x in Fencing(inputs, ready, fenced) <==> x in ready && Fenced(inputs, x.key) == fenced
  {
    if ready != [] {
      var n := |ready| - 1;
      FencingKeeps(inputs, ready[..n], fenced);
      assert ready == ready[..n] + [ready[n]];
    }
  }

  lemma {:induction false} FencingParts(inputs: map<Name, Input>, ready: seq<BatchSegment>)
    ensures multiset(Fencing(inputs, ready, true)) + multiset(Fencing(inputs, ready, false)) == multiset(ready)
  {
    if ready != [] {
      var n := |ready| - 1;
      FencingParts(inputs, ready[..n]);
      assert ready == ready[..n] + [ready[n]];
    }
  }

  lemma UnfencedIsRising(inputs: map<Name, Input>, ready: seq<BatchSegment>)
    requires AllReplayable(inputs, ready)
    ensures
      var rest := Fencing(inputs, ready, false);
      forall i :: 0 <= i < |rest| ==> rest[i].key in RisingKeys(inputs)
  {
    FencingKeeps(inputs, ready, false);
    var rest := Fencing(inputs, ready, false);
    forall i | 0 <= i < |rest|
      ensures rest[i].key in RisingKeys(inputs)
    {
      assert rest[i] in ready;
    }
  }

  lemma NothingIsLost(inputs: map<Name, Input>, ready: seq<BatchSegment>, sent: seq<BatchSegment>, unsent: seq<BatchSegment>)
    requires sent + unsent == Fencing(inputs, ready, true)
    ensures multiset(Fencing(inputs, ready, false) + unsent) + multiset(sent) == multiset(ready)
  {
    FencingParts(inputs, ready);
    assert multiset(sent + unsent) == multiset(sent) + multiset(unsent);
  }

  /**
   Compacts what was delivered and sends what the current configuration may replay. It succeeds
   only if no ready segment is fenced to another revision, and then leaves none that is fenced at all.
   */
  method DrainReadySegments(batches: Batches, inputs: map<Name, Input>, hec: Option<Hec>, stops: nat -> bool)
    returns (next: Batches, sent: seq<BatchSegment>, drained: bool)
    ensures sent <= Fencing(inputs, batches.ready, true)
    ensures multiset(next.ready) + multiset(sent) == multiset(batches.ready)
    ensures drained ==>
      && AllReplayable(inputs, batches.ready)
      && next.ready == Fencing(inputs, batches.ready, false)
      && sent == Fencing(inputs, batches.ready, true)
      && (forall i :: 0 <= i < |next.ready| ==> next.ready[i].key in RisingKeys(inputs))
      && (forall i :: 0 <= i < |next.delivered| ==> next.delivered[i].key in RisingKeys(inputs))
    ensures !AllReplayable(inputs, batches.ready) ==> next == batches && sent == []
    ensures drained <==> CanDrain(batches, inputs, hec, stops)
    ensures forall x :: x in sent ==> exists name ::
              name in inputs && inputs[name].rising.None? && inputs[name].key == x.key && inputs[name].revision == x.revision
    ensures WellKeyed(inputs) ==> forall i, name ::
              && 0 <= i < |batches.ready| && name in inputs && inputs[name].rising.None?
              && inputs[name].key == batches.ready[i].key && inputs[name].revision != batches.ready[i].revision
              ==> !drained && sent == [] && next == batches
    ensures forall x :: x in next.delivered ==> x in batches.delivered
  {
    next, sent, drained := batches, [], false;
    if exists i :: 0 <= i < |batches.ready| && !Replayable(inputs, batches.ready[i]) {
      return;
    }
    var delivered, compacted := CompactAcknowledged(batches.delivered, inputs);
    next := Batches(batches.ready, delivered);
    if !compacted {
      return;
    }
    var ready;
    ready, sent, drained := ReplayFenced(batches.ready, inputs, hec, stops);
    FencingKeeps(inputs, batches.ready, true);
    next := Batches(ready, delivered);
  }

  /** Sends the fenced segments; the others, and what is not sent, stay ready. */
  method ReplayFenced(ready: seq<BatchSegment>, inputs: map<Name, Input>, hec: Option<Hec>, stops: nat -> bool)
    returns (rest: seq<BatchSegment>, sent: seq<BatchSegment>, drained: bool)
    requires AllReplayable(inputs, ready)
    ensures sent <= Fencing(inputs, ready, true)
    ensures multiset(rest) + multiset(sent) == multiset(ready)
    ensures drained ==> sent == Fencing(inputs, ready, true) && rest == Fencing(inputs, ready, false)
    ensures drained ==> forall i :: 0 <= i < |rest| ==> rest[i].key in RisingKeys(inputs)
    ensures drained <==> CanReplay(Fencing(inputs, ready, true), hec, stops)
  {
    var pending := Fencing(inputs, ready, true);
    if pending != [] && hec.None? {
      return ready, [], false;
    }
    var unsent;
    sent, unsent := Replay(pending, stops);
    NothingIsLost(inputs, ready, sent, unsent);
    UnfencedIsRising(inputs, ready);
    drained := unsent == [];
    rest := Fencing(inputs, ready, false) + unsent;
  }

  /** Compacts the acknowledged batch segments; one that carries recovery metadata ends it. */
  method CompactAcknowledged(delivered: seq<BatchSegment>, inputs: map<Name, Input>)
    returns (rest: seq<BatchSegment>, compacted: bool)
    ensures compacted <==> AllCompactable(inputs, delivered)
    ensures compacted ==> forall x :: x in rest <==> x in delivered && x.key in RisingKeys(inputs)
    ensures forall x :: x in delivered && x.key in RisingKeys(inputs) ==> x in rest
    ensures forall x :: x in rest ==> x in delivered
  {
    var kept: seq<BatchSegment> := [];
    for i := 0 to |delivered|
      invariant forall x :: x in kept <==> x in delivered[..i] && x.key in RisingKeys(inputs)
      invariant forall k :: 0 <= k < i ==> delivered[k].key in RisingKeys(inputs) || !delivered[k].hasMetadata
    {
      assert delivered[..i + 1] == delivered[..i] + [delivered[i]];
      if delivered[i].key in RisingKeys(inputs) {
        kept := kept + [delivered[i]];
      } else if delivered[i].hasMetadata {
        assert delivered == delivered[..i] + delivered[i..];
        return kept + delivered[i..], false;
      }
    }
    assert delivered[..|delivered|] == delivered;
    return kept, true;
  }

  /** Sends the segments in order until one is stopped. */
  method Replay(pending: seq<BatchSegment>, stops: nat -> bool) returns (sent: seq<BatchSegment>, unsent: seq<BatchSegment>)
    ensures sent + unsent == pending
    ensures unsent == [] <==> forall i :: 0 <= i < |pending| ==> !stops(i)
  {
    for i := 0 to |pending|
      invariant forall j :: 0 <= j < i ==> !stops(j)
    {
      if stops(i) {
        return pending[..i], pending[i..];
      }
    }
    return pending, [];
  }

  // ---- the reload -----------------------------------------------------------------------------

  /** Every persisted identity stays configured. */
  predicate KeepsPersisted(worlds: Worlds, candidate: map<Name, Input>) {
    forall id :: id in worlds && worlds[id].store.Some? ==> id in RisingIds(candidate)
  }

  /** No candidate changes the lineage or cursor identity of a persisted input. */
  predicate KeepsLineage(worlds: Worlds, candidate: map<Name, Input>) {
    forall name :: name in candidate && IsRising(candidate, name) && WorldId(candidate, name) in worlds ==>
      var w := worlds[WorldId(candidate, name)];
      w.store.Some? ==> w.store.value.identity == candidate[name].rising.value.identity
  }

  ghost predicate AllAtRest(worlds: Worlds) {
    forall id :: id in worlds ==> AtRest(worlds[id])
  }

  /** When no input waits for a page, every world is at rest: none can be persisted but not configured. */
  lemma BacklogDoneMeansAtRest(worlds: Worlds, inputs: map<Name, Input>)
    requires Managed(worlds, inputs) && Done(worlds, inputs, RisingNames(inputs), {})
    ensures AllAtRest(worlds)
  {
    forall id | id in worlds
      ensures AtRest(worlds[id])
    {
      if worlds[id].store.Some? {
        assert id in RisingIds(inputs);
        var name :| name in inputs && inputs[name].rising.Some? && inputs[name].rising.value.identity.inputId == id;
        assert name in RisingNames(inputs);
        NoScanMeansAtRest(worlds[id]);
      } else {
        NeverStoredMeansAtRest(worlds[id]);
      }
    }
  }

  /** A rising identity that has no state yet: its table, and nothing else. */
  function NewWorld(prepared: Prepared, table: seq<Row>): World {
    World.World(prepared, None, map[], Worker.Idle, None, table, [])
  }

  lemma NewWorldIsReachable(prepared: Prepared, table: seq<Row>)
    requires Sorted(table)
    ensures Reachable(NewWorld(prepared, table))
  {
    TraceOne(NewWorld(prepared, table));
  }

  predicate IsNew(w: World) {
    w.store.None? && w.spool == map[] && Quiet(w)
  }

  /**
   The worlds of the inputs in `done` run what is configured, with a new one for an identity seen for
   the first time; nothing else about any world changed.
   */
  ghost predicate Prepares(worlds: Worlds, inputs: map<Name, Input>, done: set<Name>, next: Worlds) {
    && Sound(next) && worlds.Keys <= next.Keys
    && (forall id :: id in worlds ==> next[id] == worlds[id].(prepared := next[id].prepared))
    && (forall id :: id in next && id !in worlds ==> IsNew(next[id]))
    && (forall name :: name in done ==>
          IsRising(inputs, name) && WorldId(inputs, name) in next
          && next[WorldId(inputs, name)].prepared == inputs[name].rising.value)
  }

  /** The world of one input under its new prepared form. */
  function PreparedWorld(worlds: Worlds, inputs: map<Name, Input>, name: Name, tables: Bytes -> seq<Row>): World
    requires IsRising(inputs, name)
  {
    var id, prepared := WorldId(inputs, name), inputs[name].rising.value;
    if id in worlds then worlds[id].(prepared := prepared) else NewWorld(prepared, tables(id))
  }

  lemma PreparedIsReachable(worlds: Worlds, inputs: map<Name, Input>, name: Name, tables: Bytes -> seq<Row>)
    requires Sound(worlds) && IsRising(inputs, name) && Sorted(tables(WorldId(inputs, name)))
    requires WorldId(inputs, name) in worlds ==> Quiet(worlds[WorldId(inputs, name)])
    ensures Reachable(PreparedWorld(worlds, inputs, name, tables))
  {
    var id := WorldId(inputs, name);
    if id in worlds {
      ReconfiguredIsReachable(worlds[id], inputs[name].rising.value);
    } else {
      NewWorldIsReachable(inputs[name].rising.value, tables(id));
    }
  }

  /** Setting one world that may be reached keeps all of them so. */
  lemma SoundWith(worlds: Worlds, id: Bytes, w: World)
    requires Sound(worlds) && Reachable(w)
    ensures Sound(worlds[id := w])
  {
  }

  lemma OneWorldMore(worlds: Worlds, inputs: map<Name, Input>, rest: set<Name>, next: Worlds, name: Name, w: World)
    requires Prepares(worlds, inputs, RisingNames(inputs) - rest, next) && WellKeyed(inputs)
    requires name in rest && IsRising(inputs, name) && w.prepared == inputs[name].rising.value
    requires
      var id := WorldId(inputs, name);
      && Sound(next[id := w])
      && (if id in next then w == next[id].(prepared := w.prepared) else id !in worlds && IsNew(w))
    ensures Prepares(worlds, inputs, RisingNames(inputs) - (rest - {name}), next[WorldId(inputs, name) := w])
  {
    forall other | other in RisingNames(inputs) && other != name
      ensures WorldId(inputs, other) != WorldId(inputs, name)
    {
      OneIdEach(inputs, name, other);
    }
  }

  lemma PreparesMore(
      worlds: Worlds, inputs: map<Name, Input>, rest: set<Name>, next: Worlds, name: Name, tables: Bytes -> seq<Row>)
    requires Prepares(worlds, inputs, RisingNames(inputs) - rest, next) && Stopped(worlds) && WellKeyed(inputs)
    requires name in rest && IsRising(inputs, name) && Sorted(tables(WorldId(inputs, name)))
    ensures Prepares(
              worlds, inputs, RisingNames(inputs) - (rest - {name}),
              next[WorldId(inputs, name) := PreparedWorld(next, inputs, name, tables)])
  {
    var id, w := WorldId(inputs, name), PreparedWorld(next, inputs, name, tables);
    assert Sound(next[id := w]) by {
      PreparedIsReachable(next, inputs, name, tables);
      SoundWith(next, id, w);
    }
    OneWorldMore(worlds, inputs, rest, next, name, w);
  }

  lemma PreparedIsManaged(worlds: Worlds, inputs: map<Name, Input>, next: Worlds)
    requires Prepares(worlds, inputs, RisingNames(inputs), next)
    requires Stopped(worlds) && AllAtRest(worlds) && KeepsPersisted(worlds, inputs) && KeepsLineage(worlds, inputs)
    ensures Managed(next, inputs) && AllAtRest(next) && KeepsPersisted(next, inputs) && KeepsLineage(next, inputs)
  {
    forall name | IsRising(inputs, name)
      ensures name in RisingNames(inputs)
    {
    }
    forall id | id in next
      ensures AtRest(next[id]) && Quiet(next[id])
      ensures next[id].store.Some? ==> id in worlds && next[id].store == worlds[id].store
    {
      if id in worlds {
        assert AtRest(worlds[id]) && Quiet(worlds[id]);
      }
    }
  }

  /** Runs every configured rising input under its new prepared form. */
  method PrepareAll(worlds: Worlds, inputs: map<Name, Input>, tables: Bytes -> seq<Row>) returns (next: Worlds)
    requires Sound(worlds) && Stopped(worlds) && AllAtRest(worlds) && WellKeyed(inputs)
    requires KeepsPersisted(worlds, inputs) && KeepsLineage(worlds, inputs)
    requires forall id :: Sorted(tables(id))
    ensures Managed(next, inputs) && AllAtRest(next) && KeepsPersisted(next, inputs) && KeepsLineage(next, inputs)
  {
    next := worlds;
    var rest := RisingNames(inputs);
    while rest != {}
      invariant rest <= RisingNames(inputs) && Prepares(worlds, inputs, RisingNames(inputs) - rest, next)
      decreases |rest|
    {
      var name :| name in rest;
      PreparesMore(worlds, inputs, rest, next, name, tables);
      next := next[WorldId(inputs, name) := PreparedWorld(next, inputs, name, tables)];
      rest := rest - {name};
    }
    assert RisingNames(inputs) - {} == RisingNames(inputs);
    PreparedIsManaged(worlds, inputs, next);
  }

  /**
   When nothing is left to do under a configuration: every input can be reconciled and waits for no
   page, and the batch spool drains.
   */
  ghost predicate CanSettle(worlds: Worlds, inputs: map<Name, Input>, batches: Batches, hec: Option<Hec>, stops: nat -> bool) {
    AllRoom(worlds, inputs) && NoneLeavesOpen(worlds, inputs) && CanDrain(batches, inputs, hec, stops)
  }

  lemma HaltingChangesNoScan(worlds: Worlds, halted: Worlds, inputs: map<Name, Input>)
    requires halted.Keys == worlds.Keys && forall id :: id in worlds ==> halted[id] == Halted(worlds[id])
    ensures AllRoom(halted, inputs) <==> AllRoom(worlds, inputs)
    ensures NoneLeavesOpen(halted, inputs) <==> NoneLeavesOpen(worlds, inputs)
  {
    forall id | id in worlds
      ensures Room(halted[id]) <==> Room(worlds[id])
      ensures LeavesOpen(halted[id]) <==> LeavesOpen(worlds[id])
    {
    }
  }

  /** Stops, reconciles and drains with the old configuration; true only if nothing is left to do under it. */
  method Quiesce(
      worlds: Worlds, batches: Batches, inputs: map<Name, Input>, hec: Option<Hec>,
      faults: Bytes -> nat -> Fault, stops: nat -> bool)
    returns (next: Worlds, drained: Batches, quiet: bool)
    requires Sound(worlds) && Configured(worlds, inputs) && WellKeyed(inputs)
    ensures Managed(next, inputs) && SamePersisted(worlds, next)
    ensures quiet ==>
      && AllAtRest(next)
      && (forall i :: 0 <= i < |drained.ready| ==> drained.ready[i].key in RisingKeys(inputs))
      && (forall i :: 0 <= i < |drained.delivered| ==> drained.delivered[i].key in RisingKeys(inputs))
    ensures forall x :: x in drained.ready ==> x in batches.ready
    ensures forall x :: x in drained.delivered ==> x in batches.delivered
    ensures quiet ==> CanSettle(worlds, inputs, batches, hec, stops)
    ensures Undisturbed(faults) ==> (quiet <==> CanSettle(worlds, inputs, batches, hec, stops))
  {
    var halted := HaltAll(worlds);
    HaltedIsManaged(worlds, halted, inputs);
    HaltingChangesNoScan(worlds, halted, inputs);
    var reconciled, backlog := ReconcileBacklog(halted, inputs, faults);
    SamePersistedOn(worlds, halted, reconciled);
    if backlog.Err? || backlog.value != {} {
      return reconciled, batches, false;
    }
    BacklogDoneMeansAtRest(reconciled, inputs);
    var rest, sent, done := DrainReadySegments(batches, inputs, hec, stops);
    forall x | x in rest.ready
      ensures x in batches.ready
    {
      assert x in multiset(rest.ready) + multiset(sent);
    }
    return reconciled, rest, done;
  }

  lemma HaltedIsManaged(worlds: Worlds, halted: Worlds, inputs: map<Name, Input>)
    requires Sound(halted) && Stopped(halted) && Configured(worlds, inputs) && halted.Keys == worlds.Keys
    requires forall id :: id in worlds ==> halted[id] == Halted(worlds[id])
    ensures Managed(halted, inputs) && SamePersisted(worlds, halted)
  {
  }

  lemma PersistedStays(worlds: Worlds, next: Worlds, candidate: map<Name, Input>)
    requires SamePersisted(worlds, next) && KeepsPersisted(worlds, candidate) && KeepsLineage(worlds, candidate)
    ensures KeepsPersisted(next, candidate) && KeepsLineage(next, candidate)
  {
  }

  /** Batch segments are sealed by batch inputs. */
  predicate OfBatchInputs(ready: seq<BatchSegment>) {
    forall i :: 0 <= i < |ready| ==> ready[i].key.BatchKey?
  }

  lemma OnlyRisingIsNone(ready: seq<BatchSegment>, rest: seq<BatchSegment>, inputs: map<Name, Input>, drained: bool)
    requires OfBatchInputs(ready) && WellKeyed(inputs) && forall x :: x in rest ==> x in ready
    requires drained ==> forall i :: 0 <= i < |rest| ==> rest[i].key in RisingKeys(inputs)
    ensures OfBatchInputs(rest)
    ensures drained ==> rest == []
  {
    assert forall i :: 0 <= i < |rest| ==> rest[i] in ready;
    if drained && rest != [] {
      RisingKeysAreRising(inputs, rest[0].key);
    }
  }

  lemma RisingKeysAreRising(inputs: map<Name, Input>, key: InputKey)
    requires WellKeyed(inputs) && key in RisingKeys(inputs)
    ensures key.RisingKey?
  {
  }

  /** No rising scan is open, nothing is retained, and every persisted input is configured as it was created. */
  ghost predicate Quiescent(worlds: Worlds, inputs: map<Name, Input>, batches: Batches) {
    && AllAtRest(worlds) && batches == Batches([], [])
    && KeepsPersisted(worlds, inputs) && KeepsLineage(worlds, inputs)
  }

  /** When no input of a candidate contradicts what is configured or persisted. */
  ghost predicate Acceptable(worlds: Worlds, inputs: map<Name, Input>, candidate: map<Name, Input>) {
    SameIdentities(inputs, candidate) && KeepsPersisted(worlds, candidate) && KeepsLineage(worlds, candidate)
  }

  class Daemon {
    var config: Config
    var hec: Option<Hec>
    var inputs: map<Name, Input>
    var generations: G.ConfigurationGenerations
    var schedule: S.ScheduleState
    var tasks: set<Name>
    var validatedRising: set<Bytes>
    var worlds: Worlds
    var batches: Batches

    constructor (
        config: Config, hec: Option<Hec>, inputs: map<Name, Input>, generations: G.ConfigurationGenerations,
        schedule: S.ScheduleState, worlds: Worlds, batches: Batches)
      requires Sound(worlds) && Configured(worlds, inputs) && WellKeyed(inputs)
      requires OfBatchInputs(batches.ready) && OfBatchInputs(batches.delivered)
      ensures Valid()
    {
      this.config, this.hec, this.inputs := config, hec, inputs;
      this.generations, this.schedule := generations, schedule;
      this.tasks, this.validatedRising := {}, {};
      this.worlds, this.batches := worlds, batches;
    }

    ghost predicate Valid()
      reads this
    {
      && Sound(worlds) && Configured(worlds, inputs) && WellKeyed(inputs)
      && OfBatchInputs(batches.ready) && OfBatchInputs(batches.delivered)
    }

    /**
     Installs a prepared configuration, or leaves everything a reload may change as it was. It
     installs only at quiescence: no rising scan is open, nothing rising is retained, and no batch
     segment waits to be replayed. Without faults it installs exactly if the candidate is acceptable,
     the old work can be settled, the new revisions can be activated and the new client is ready.
     */
    method ApplyReload(
        newConfig: Config, newInputs: map<Name, Input>, newHec: Option<Option<Hec>>, now: nat,
        faults: Bytes -> nat -> Fault, stops: nat -> bool, tables: Bytes -> seq<Row>)
      returns (r: Result<ReloadOutcome, ReloadError>)
      requires Valid() && WellKeyed(newInputs)
      requires forall id :: Sorted(tables(id))
      modifies this, schedule
      ensures Valid()
      ensures r != Ok(Installed) ==>
        config == old(config) && hec == old(hec) && inputs == old(inputs) && generations == old(generations)
      ensures r == Ok(Installed) ==>
        && config == newConfig && newHec == Some(hec) && inputs == newInputs
        && G.Activates(old(generations.Value()), BatchRevisions(newInputs), generations.Value())
        && SameIdentities(old(inputs), newInputs) && Quiescent(worlds, inputs, batches)
        && tasks == {} && validatedRising == {}
      ensures r == Ok(Installed) ==>
        && old(Acceptable(worlds, inputs, newInputs)) && old(CanSettle(worlds, inputs, batches, hec, stops))
        && old(G.Activatable(generations.Value(), BatchRevisions(newInputs))) && newHec.Some?
      ensures Undisturbed(faults) ==> (r == Ok(Installed) <==>
        && old(Acceptable(worlds, inputs, newInputs)) && old(CanSettle(worlds, inputs, batches, hec, stops))
        && old(G.Activatable(generations.Value(), BatchRevisions(newInputs))) && newHec.Some?)
      ensures r.Err? ==> !G.Activatable(old(generations.Value()), BatchRevisions(newInputs))
      ensures Undisturbed(faults) ==> (r.Err? <==>
        && old(Acceptable(worlds, inputs, newInputs)) && old(CanSettle(worlds, inputs, batches, hec, stops))
        && !G.Activatable(old(generations.Value()), BatchRevisions(newInputs)))
      ensures !SameIdentities(old(inputs), newInputs) || !KeepsPersisted(old(worlds), newInputs) || !KeepsLineage(old(worlds), newInputs) ==>
        r == Ok(Refused) && worlds == old(worlds) && batches == old(batches) && tasks == old(tasks)
      ensures schedule == old(schedule)
      ensures r == Ok(Installed) ==>
        schedule.Value() == S.Synced(old(schedule.Value()).(running := {}), Runnable(newInputs), now)
      ensures r != Ok(Installed) ==>
        schedule.Value() == old(schedule.Value()) || schedule.Value() == S.After(old(schedule.Value()), S.Release)
    {
      if !SameIdentities(inputs, newInputs) || !KeepsPersisted(worlds, newInputs) || !KeepsLineage(worlds, newInputs) {
        return Ok(Refused);
      }
      var quiet := WindDown(faults, stops, newInputs);
      if !quiet {
        return Ok(Refused);
      }
      var newGenerations := new G.ConfigurationGenerations.Clone(generations.Value());
      var activated := newGenerations.ActivateRevisions(BatchRevisions(newInputs));
      if activated.Fail? {
        return Err(GenerationsExhausted);
      }
      if newHec.None? {
        return Ok(Refused);
      }
      Install(newConfig, newInputs, newHec.value, newGenerations, now, tables);
      return Ok(Installed);
    }

    /** Stops the workers and settles the old configuration's work; true if nothing is left of it. */
    method WindDown(faults: Bytes -> nat -> Fault, stops: nat -> bool, ghost candidate: map<Name, Input>) returns (quiet: bool)
      requires Valid() && KeepsPersisted(worlds, candidate) && KeepsLineage(worlds, candidate)
      modifies this`worlds, this`batches, this`tasks, schedule
      ensures Valid() && Stopped(worlds) && worlds.Keys == old(worlds.Keys)
      ensures KeepsPersisted(worlds, candidate) && KeepsLineage(worlds, candidate)
      ensures tasks == {}
      ensures quiet ==> AllAtRest(worlds) && batches == Batches([], [])
      ensures quiet ==> old(CanSettle(worlds, inputs, batches, hec, stops))
      ensures Undisturbed(faults) ==> (quiet <==> old(CanSettle(worlds, inputs, batches, hec, stops)))
      ensures schedule.Value() == S.After(old(schedule.Value()), S.Release)
    {
      tasks := {};
      schedule.ReleaseAll();
      var quiesced, drained;
      quiesced, drained, quiet := Quiesce(worlds, batches, inputs, hec, faults, stops);
      PersistedStays(worlds, quiesced, candidate);
      OnlyRisingIsNone(batches.ready, drained.ready, inputs, quiet);
      OnlyRisingIsNone(batches.delivered, drained.delivered, inputs, quiet);
      worlds, batches := quiesced, drained;
    }

    method Install(
        newConfig: Config, newInputs: map<Name, Input>, newHec: Option<Hec>, newGenerations: G.ConfigurationGenerations,
        now: nat, tables: Bytes -> seq<Row>)
      requires Valid() && Stopped(worlds) && AllAtRest(worlds) && WellKeyed(newInputs)
      requires KeepsPersisted(worlds, newInputs) && KeepsLineage(worlds, newInputs)
      requires forall id :: Sorted(tables(id))
      modifies this`config, this`hec, this`inputs, this`generations, this`worlds, this`validatedRising, schedule
      ensures Valid() && AllAtRest(worlds) && KeepsPersisted(worlds, newInputs) && KeepsLineage(worlds, newInputs)
      ensures config == newConfig && hec == newHec && inputs == newInputs && generations == newGenerations
      ensures validatedRising == {}
      ensures schedule.Value() == S.Synced(old(schedule.Value()), Runnable(newInputs), now)
    {
      worlds := PrepareAll(worlds, newInputs, tables);
      config, hec, inputs, generations := newConfig, newHec, newInputs, newGenerations;
      validatedRising := {};
      schedule.Sync(Runnable(inputs), now);
    }
  }

  /** Only the generation counter can stop the activation of another revision. */
  predicate GenerationsLeft(w: World) {
    w.store.Some? && w.store.value.revision != w.prepared.revision ==> w.store.value.configurationGeneration < MAX_U64
  }

  lemma InstalledIsEnsurable(w: World)
    requires Reachable(w) && AtRest(w)
    requires w.store.Some? ==> w.store.value.identity == w.prepared.identity
    ensures Ensurable(w) <==> GenerationsLeft(w)
  {
  }

  /**
   After an install nothing old stands in the way of the new configuration: each rising input can be
   ensured, unless its generation counter is exhausted, and the batch spool can be drained, whatever
   the revisions and the sink.
   */
  lemma InstalledIsReady(worlds: Worlds, inputs: map<Name, Input>, batches: Batches, hec: Option<Hec>, stops: nat -> bool)
    requires Sound(worlds) && Configured(worlds, inputs) && Quiescent(worlds, inputs, batches)
    ensures forall name :: IsRising(inputs, name) ==>
              WorldId(inputs, name) in worlds
              && (Ensurable(worlds[WorldId(inputs, name)]) <==> GenerationsLeft(worlds[WorldId(inputs, name)]))
    ensures CanDrain(batches, inputs, hec, stops)
  {
    forall name | IsRising(inputs, name)
      ensures
        WorldId(inputs, name) in worlds
        && (Ensurable(worlds[WorldId(inputs, name)]) <==> GenerationsLeft(worlds[WorldId(inputs, name)]))
    {
      InstalledIsEnsurable(worlds[WorldId(inputs, name)]);
    }
  }

  lemma RestingHasRoom(w: World)
    requires AtRest(w) && (w.store.Some? ==> w.store.value.identity == w.prepared.identity)
    ensures Room(w) <==> GenerationsLeft(w)
    ensures !LeavesOpen(w)
  {
  }

  /**
   After an install the daemon's next pass over the old work finds none: without faults it settles,
   so that collection may begin, exactly if no input needs a generation it does not have.
   */
  lemma InstalledSettles(worlds: Worlds, inputs: map<Name, Input>, batches: Batches, hec: Option<Hec>, stops: nat -> bool)
    requires Sound(worlds) && Configured(worlds, inputs) && Quiescent(worlds, inputs, batches)
    ensures CanSettle(worlds, inputs, batches, hec, stops) <==>
              forall name :: IsRising(inputs, name) ==> GenerationsLeft(worlds[WorldId(inputs, name)])
  {
    InstalledIsReady(worlds, inputs, batches, hec, stops);
    forall name | IsRising(inputs, name)
      ensures Room(worlds[WorldId(inputs, name)]) <==> GenerationsLeft(worlds[WorldId(inputs, name)])
      ensures !LeavesOpen(worlds[WorldId(inputs, name)])
    {
      RestingHasRoom(worlds[WorldId(inputs, name)]);
    }
  }
}
