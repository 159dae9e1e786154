/** What a reload compares and what it may replay, in terms of the inputs' own fields. */
module ReloadLaws {
  import opened Wrappers
  import opened Identity
  import opened Protocol
  import opened Rising
  import opened Reload
  import S = Schedule

  predicate IsBatch(inputs: map<Name, Input>, name: Name) {
    name in inputs && inputs[name].rising.None?
  }

  /**
   A candidate is acceptable if and only if it changes no collection mode and no rising id under a name
   that stays, configures every input that has state, and leaves its source identity alone.
   */
  lemma AcceptableExactlyWhen(worlds: Worlds, inputs: map<Name, Input>, candidate: map<Name, Input>)
    ensures Acceptable(worlds, inputs, candidate) <==>
      && (forall name :: name in inputs && name in candidate ==>
            if inputs[name].rising.Some? then
              && candidate[name].rising.Some?
              && candidate[name].rising.value.identity.inputId == inputs[name].rising.value.identity.inputId
            else candidate[name].rising.None?)
      && (forall id :: id in worlds && worlds[id].store.Some? ==>
            exists name :: name in candidate && candidate[name].rising.Some? && candidate[name].rising.value.identity.inputId == id)
      && (forall name :: name in candidate && candidate[name].rising.Some? ==>
            var prepared := candidate[name].rising.value;
            prepared.identity.inputId in worlds && worlds[prepared.identity.inputId].store.Some? ==>
              worlds[prepared.identity.inputId].store.value.identity == prepared.identity)
  {
    assert forall name :: name in inputs && name in candidate ==>
        (RisingId(inputs[name]) == RisingId(candidate[name]) <==>
          if inputs[name].rising.Some? then
            && candidate[name].rising.Some?
            && candidate[name].rising.value.identity.inputId == inputs[name].rising.value.identity.inputId
          else candidate[name].rising.None?);
  }

  /** After an install exactly the inputs that are not disabled are scheduled, and none runs. */
  lemma InstalledSchedule(s: S.State, inputs: map<Name, Input>, now: nat)
    ensures
      var after := S.Synced(s.(running := {}), Runnable(inputs), now);
      && after.running == {}
      && (forall name :: name in after.nextDue <==> name in inputs && !inputs[name].disabled)
      && (forall name :: name in after.nextDue ==> after.nextDue[name] == if name in s.nextDue then s.nextDue[name] else now)
  {
  }

  /** Exactly the batch inputs are activated, each under its revision. */
  lemma ActivatedRevisions(inputs: map<Name, Input>, name: Name)
    ensures name in BatchRevisions(inputs) <==> IsBatch(inputs, name)
    ensures IsBatch(inputs, name) ==> BatchRevisions(inputs)[name] == inputs[name].revision
  {
  }

  /** A ready segment that this configuration may pass by: of a batch input at the same revision, or of a rising input. */
  predicate IsCurrent(inputs: map<Name, Input>, segment: BatchSegment) {
    exists name :: name in inputs && inputs[name].key == segment.key &&
      (inputs[name].rising.Some? || inputs[name].revision == segment.revision)
  }

  predicate HasBatchKey(inputs: map<Name, Input>, segment: BatchSegment) {
    exists name :: name in inputs && inputs[name].rising.None? && inputs[name].key == segment.key
  }

  predicate HasRisingKey(inputs: map<Name, Input>, segment: BatchSegment) {
    exists name :: name in inputs && inputs[name].rising.Some? && inputs[name].key == segment.key
  }

  lemma ReplayableExactlyWhen(inputs: map<Name, Input>, segment: BatchSegment)
    requires WellKeyed(inputs)
    ensures Replayable(inputs, segment) <==> IsCurrent(inputs, segment)
    ensures Fenced(inputs, segment.key) <==> HasBatchKey(inputs, segment)
    ensures segment.key in RisingKeys(inputs) <==> HasRisingKey(inputs, segment)
  {
    if IsCurrent(inputs, segment) {
      var name :| name in inputs && inputs[name].key == segment.key &&
        (inputs[name].rising.Some? || inputs[name].revision == segment.revision);
      if Fenced(inputs, segment.key) {
        var other :| other in inputs && inputs[other].rising.None? && inputs[other].key == segment.key;
        assert other == name;
      }
    }
    if Replayable(inputs, segment) && Fenced(inputs, segment.key) {
      var name :| name in inputs && inputs[name].rising.None? && inputs[name].key == segment.key && inputs[name].revision == segment.revision;
    }
  }

  /**
   A drain needs every ready segment to be current, every acknowledged one to be a rising input's or
   without recovery metadata, and, if a batch input has a segment to send, a sink.
   */
  lemma DrainsOnlyWhen(batches: Batches, inputs: map<Name, Input>, hec: Option<Hec>, stops: nat -> bool)
    requires WellKeyed(inputs) && CanDrain(batches, inputs, hec, stops)
    ensures forall i :: 0 <= i < |batches.ready| ==> IsCurrent(inputs, batches.ready[i])
    ensures forall i :: 0 <= i < |batches.delivered| ==>
              HasRisingKey(inputs, batches.delivered[i]) || !batches.delivered[i].hasMetadata
    ensures (exists x :: x in batches.ready && HasBatchKey(inputs, x)) ==> hec.Some?
  {
    forall i | 0 <= i < |batches.ready|
      ensures IsCurrent(inputs, batches.ready[i])
    {
      ReplayableExactlyWhen(inputs, batches.ready[i]);
    }
    forall i | 0 <= i < |batches.delivered|
      ensures HasRisingKey(inputs, batches.delivered[i]) || !batches.delivered[i].hasMetadata
    {
      ReplayableExactlyWhen(inputs, batches.delivered[i]);
    }
    if x :| x in batches.ready && HasBatchKey(inputs, x) {
      FencingKeeps(inputs, batches.ready, true);
      ReplayableExactlyWhen(inputs, x);
      assert x in Fencing(inputs, batches.ready, true);
    }
  }

  /** Undisturbed and with a sink, nothing more is needed. */
  lemma DrainsWhenever(batches: Batches, inputs: map<Name, Input>, hec: Option<Hec>, stops: nat -> bool)
    requires WellKeyed(inputs) && hec.Some? && forall n :: !stops(n)
    requires forall i :: 0 <= i < |batches.ready| ==> IsCurrent(inputs, batches.ready[i])
    requires forall i :: 0 <= i < |batches.delivered| ==>
               HasRisingKey(inputs, batches.delivered[i]) || !batches.delivered[i].hasMetadata
    ensures CanDrain(batches, inputs, hec, stops)
  {
    forall i | 0 <= i < |batches.ready|
      ensures Replayable(inputs, batches.ready[i])
    {
      ReplayableExactlyWhen(inputs, batches.ready[i]);
    }
    forall i | 0 <= i < |batches.delivered|
      ensures batches.delivered[i].key in RisingKeys(inputs) || !batches.delivered[i].hasMetadata
    {
      ReplayableExactlyWhen(inputs, batches.delivered[i]);
    }
  }
}
