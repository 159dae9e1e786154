/** What holds of the checkpoint over every sequence of calls, with any arguments. */
module CheckpointRuns {
  import opened Wrappers
  import opened Cursors
  import opened Identity
  import opened C = Checkpoint

  datatype Call =
    | Start(fence: AttemptFence)
    | CompleteCollection(fence: AttemptFence, rows: U64, candidate: Option<Cursor>)
    | FailCollection(fence: AttemptFence)
    | ConfirmDelivery(fence: AttemptFence, rows: U64)
    | FailDelivery(fence: AttemptFence)
    | DoubtDelivery(fence: AttemptFence)
    | CommitAttempt(fence: AttemptFence)
    | RecoverAttempt(configurationId: ConfigurationId, generation: U64)

  datatype Reply =
    | StartReply(start: Result<StartOutcome, CheckpointError>)
    | RecordReply(record: Result<RecordOutcome, CheckpointError>)
    | CommitReply(commit: Result<CommitOutcome, CheckpointError>)
    | RecoverReply(recover: Result<RecoveryAction, CheckpointError>)
  {
    predicate IsError() {
      match this
      case StartReply(r) => r.Err?
      case RecordReply(r) => r.Err?
      case CommitReply(r) => r.Err?
      case RecoverReply(r) => r.Err?
    }

    predicate IsCommit() {
      || (CommitReply? && commit.Ok? && commit.value.Committed?)
      || (RecoverReply? && recover.Ok? && recover.value.RecoveredCommit?)
    }
  }

  datatype Applied = Applied(next: Snapshot, reply: Reply)

  function Apply(s: Snapshot, call: Call): Applied {
    match call
    case Start(fence) =>
      var step := C.StartAttempt(s, fence);
      Applied(step.next, StartReply(step.result))
    case CompleteCollection(fence, rows, candidate) =>
      var step := C.RecordCompleted(s, fence, rows, candidate);
      Applied(step.next, RecordReply(step.result))
    case FailCollection(fence) =>
      var step := C.RecordFailed(s, fence);
      Applied(step.next, RecordReply(step.result))
    case ConfirmDelivery(fence, rows) =>
      var step := C.RecordConfirmed(s, fence, rows);
      Applied(step.next, RecordReply(step.result))
    case FailDelivery(fence) =>
      var step := C.RecordTerminal(s, fence, DeliveryState.Failed);
      Applied(step.next, RecordReply(step.result))
    case DoubtDelivery(fence) =>
      var step := C.RecordTerminal(s, fence, Uncertain);
      Applied(step.next, RecordReply(step.result))
    case CommitAttempt(fence) =>
      var step := C.Commit(s, fence);
      Applied(step.next, CommitReply(step.result))
    case RecoverAttempt(configurationId, generation) =>
      var step := C.Recover(s, configurationId, generation);
      Applied(step.next, RecoverReply(step.result))
  }

  /** The snapshot after all the calls, in order. */
  function After(s: Snapshot, calls: seq<Call>): Snapshot {
    if calls == [] then s
    else Apply(After(s, calls[..|calls| - 1]), calls[|calls| - 1]).next
  }

  function ReplyAt(s: Snapshot, calls: seq<Call>, i: nat): Reply
    requires i < |calls|
  {
    Apply(After(s, calls[..i]), calls[i]).reply
  }

  function CommitCount(s: Snapshot, calls: seq<Call>): nat {
    if calls == [] then 0
    else
      var n := |calls| - 1;
      CommitCount(s, calls[..n]) + if ReplyAt(s, calls, n).IsCommit() then 1 else 0
  }

  predicate NotRegressed(before: Option<Cursor>, after: Option<Cursor>) {
    before.Some? ==> after.Some? && AtMost(before.value, after.value)
  }

  // ---- one call -------------------------------------------------------------------------------

  lemma ApplySafety(s: Snapshot, call: Call)
    requires Valid(s)
    ensures
      var a := Apply(s, call);
      && Valid(a.next)
      && (a.reply.IsError() ==> a.next == s)
      && a.next.generation == s.generation + (if a.reply.IsCommit() then 1 else 0)
      && a.next.configurationId == s.configurationId
      && NotRegressed(s.committed, a.next.committed)
  {
  }

  /** An attempt only advances along its own two tracks, or ends. */
  lemma ApplyOnActive(s: Snapshot, call: Call)
    requires Valid(s) && s.active.Some?
    ensures
      var a := Apply(s, call);
      a.next.active.Some? ==>
        && a.next.active.value.fence == s.active.value.fence
        && (a.next.active.value.collection != s.active.value.collection && a.next.active.value.collection.Completed? ==>
              && a.reply == RecordReply(Ok(Recorded))
              && call == CompleteCollection(s.active.value.fence, a.next.active.value.collection.rows, a.next.active.value.collection.candidate))
        && (a.next.active.value.delivery != s.active.value.delivery && a.next.active.value.delivery.Confirmed? ==>
              && a.reply == RecordReply(Ok(Recorded))
              && call == ConfirmDelivery(s.active.value.fence, a.next.active.value.delivery.rows))
  {
  }

  // ---- whole runs -----------------------------------------------------------------------------

  /** Validity, the generation count and the cursor order over any run, from any valid snapshot. */
  lemma {:induction false} RunSafety(s: Snapshot, calls: seq<Call>)
    requires Valid(s)
    ensures Valid(After(s, calls))
    ensures After(s, calls).generation == s.generation + CommitCount(s, calls)
    ensures NotRegressed(s.committed, After(s, calls).committed)
  {
    if calls != [] {
      var prefix := calls[..|calls| - 1];
      RunSafety(s, prefix);
      ApplySafety(After(s, prefix), calls[|calls| - 1]);
    }
  }

  ghost predicate StartedAt(s: Snapshot, calls: seq<Call>, i: int, fence: AttemptFence) {
    && 0 <= i < |calls|
    && calls[i] == Start(fence)
    && ReplyAt(s, calls, i) == StartReply(Ok(Started))
  }

  ghost predicate CollectedAt(s: Snapshot, calls: seq<Call>, i: int, fence: AttemptFence, rows: U64, candidate: Option<Cursor>) {
    && 0 <= i < |calls|
    && calls[i] == CompleteCollection(fence, rows, candidate)
    && ReplyAt(s, calls, i) == RecordReply(Ok(Recorded))
  }

  ghost predicate ConfirmedAt(s: Snapshot, calls: seq<Call>, i: int, fence: AttemptFence, rows: U64) {
    && 0 <= i < |calls|
    && calls[i] == ConfirmDelivery(fence, rows)
    && ReplyAt(s, calls, i) == RecordReply(Ok(Recorded))
  }

  /** The attempt opened by call `i` is still the active one after every later call. */
  ghost predicate HeldSince(s: Snapshot, calls: seq<Call>, i: int, fence: AttemptFence) {
    forall m :: 0 <= i < m <= |calls| ==>
      After(s, calls[..m]).active.Some? && After(s, calls[..m]).active.value.fence == fence
  }

  /** The recorded progress of an attempt was recorded by calls made under that attempt. */
  ghost predicate Traced(s: Snapshot, calls: seq<Call>, i: int, j: int, k: int, active: ActiveAttempt) {
    && StartedAt(s, calls, i, active.fence)
    && HeldSince(s, calls, i, active.fence)
    && (active.collection.Completed? ==>
          i < j && CollectedAt(s, calls, j, active.fence, active.collection.rows, active.collection.candidate))
    && (active.delivery.Confirmed? ==>
          i < k && ConfirmedAt(s, calls, k, active.fence, active.delivery.rows))
  }

  lemma PrefixFacts(s: Snapshot, calls: seq<Call>, call: Call)
    ensures (calls + [call])[..|calls|] == calls
    ensures After(s, calls + [call]) == Apply(After(s, calls), call).next
    ensures ReplyAt(s, calls + [call], |calls|) == Apply(After(s, calls), call).reply
    ensures forall i :: 0 <= i < |calls| ==> ReplyAt(s, calls + [call], i) == ReplyAt(s, calls, i)
    ensures forall m :: 0 <= m <= |calls| ==> After(s, (calls + [call])[..m]) == After(s, calls[..m])
  {
    assert (calls + [call])[..|calls|] == calls;
    forall m | 0 <= m <= |calls|
      ensures (calls + [call])[..m] == calls[..m]
    {
    }
  }

  lemma StartShape(s: Snapshot, call: Call)
    requires Valid(s) && s.active.None? && Apply(s, call).next.active.Some?
    ensures call == Start(Apply(s, call).next.active.value.fence)
    ensures Apply(s, call).reply == StartReply(Ok(Started))
    ensures Apply(s, call).next.active.value.collection.InProgress?
    ensures Apply(s, call).next.active.value.delivery.InProgress?
  {
  }

  lemma HeldOneMore(s: Snapshot, calls: seq<Call>, call: Call, i: int, fence: AttemptFence)
    requires HeldSince(s, calls, i, fence) && i <= |calls|
    requires After(s, calls + [call]).active.Some? && After(s, calls + [call]).active.value.fence == fence
    ensures HeldSince(s, calls + [call], i, fence)
  {
    var longer := calls + [call];
    forall m | 0 <= i < m <= |longer|
      ensures After(s, longer[..m]).active.Some? && After(s, longer[..m]).active.value.fence == fence
    {
      if m <= |calls| {
        assert longer[..m] == calls[..m];
      } else {
        assert longer[..m] == longer;
      }
    }
  }

  lemma {:induction false} ActiveIsTraced(s: Snapshot, calls: seq<Call>) returns (i: int, j: int, k: int)
    requires Valid(s) && s.active.None?
    requires After(s, calls).active.Some?
    ensures Traced(s, calls, i, j, k, After(s, calls).active.value)
  {
    var n := |calls| - 1;
    var prefix, call := calls[..n], calls[n];
    assert calls == prefix + [call];
    PrefixFacts(s, prefix, call);
    RunSafety(s, prefix);
    var before, after := After(s, prefix), After(s, calls).active.value;
    if before.active.None? {
      StartShape(before, call);
      i, j, k := n, n, n;
      HeldOneMore(s, prefix, call, n, after.fence);
    } else {
      i, j, k := ActiveIsTraced(s, prefix);
      ApplyOnActive(before, call);
      HeldOneMore(s, prefix, call, i, after.fence);
      if after.collection != before.active.value.collection {
        j := n;
      }
      if after.delivery != before.active.value.delivery {
        k := n;
      }
    }
  }

  /** The evidence behind one commit: an attempt started, collected `rows` rows and had them confirmed. */
  ghost predicate CommitEvidence(s: Snapshot, calls: seq<Call>, i: int, j: int, k: int,
                                 fence: AttemptFence, rows: U64, candidate: Option<Cursor>) {
    && StartedAt(s, calls, i, fence)
    && HeldSince(s, calls, i, fence)
    && i < j && CollectedAt(s, calls, j, fence, rows, candidate)
    && i < k && ConfirmedAt(s, calls, k, fence, rows)
  }

  lemma CommitShape(s: Snapshot, call: Call)
    requires Valid(s)
    requires Apply(s, call).reply.IsCommit()
    ensures s.active.Some? && s.active.value.collection.Completed? && s.active.value.delivery.Confirmed?
    ensures s.active.value.collection.rows == s.active.value.delivery.rows
    ensures call == CommitAttempt(s.active.value.fence) || call == RecoverAttempt(s.configurationId, s.generation)
    ensures
      var candidate := s.active.value.collection.candidate;
      Apply(s, call).next.committed == if candidate.Some? then candidate else s.committed
  {
  }

  lemma CommittedChangesOnlyByCommit(s: Snapshot, call: Call)
    requires Valid(s)
    requires Apply(s, call).next.committed != s.committed || Apply(s, call).next.generation != s.generation
    ensures Apply(s, call).reply.IsCommit()
  {
  }

  /**
   In every run from a snapshot without an active attempt, a call that moves the committed cursor
   moves it to the candidate of one attempt, and the run before that call holds the calls that
   opened the attempt, completed its collection with that candidate and confirmed the same rows.
   */
  lemma CursorMovesOnlyWithEvidence(s: Snapshot, calls: seq<Call>, call: Call)
    returns (i: int, j: int, k: int, fence: AttemptFence, rows: U64)
    requires Valid(s) && s.active.None?
    requires After(s, calls + [call]).committed != After(s, calls).committed
    ensures ReplyAt(s, calls + [call], |calls|).IsCommit()
    ensures call == CommitAttempt(fence) || call == RecoverAttempt(fence.configurationId, fence.generation)
    ensures After(s, calls + [call]).committed.Some?
    ensures CommitEvidence(s, calls, i, j, k, fence, rows, After(s, calls + [call]).committed)
  {
    PrefixFacts(s, calls, call);
    RunSafety(s, calls);
    var before := After(s, calls);
    CommittedChangesOnlyByCommit(before, call);
    CommitShape(before, call);
    i, j, k := ActiveIsTraced(s, calls);
    fence, rows := before.active.value.fence, before.active.value.collection.rows;
  }

  // ---- recovery agrees with commit ------------------------------------------------------------

  /** Recovery commits exactly the attempts that commit accepts, up to an exhausted generation. */
  lemma DispositionAgreesWithCommit(s: Snapshot)
    requires Valid(s) && s.active.Some?
    ensures
      var commit := C.Commit(s, s.active.value.fence).result;
      Disposition(s.active.value) == DoCommit <==>
        (commit.Ok? && commit.value.Committed?) || commit == Err(GenerationOverflow)
    ensures !(C.Commit(s, s.active.value.fence).result.Ok? && C.Commit(s, s.active.value.fence).result.value.AlreadyCommitted?)
  {
  }

  /** Recovery never leaves a half-finished attempt: it commits, or discards it and changes nothing else. */
  lemma RecoverySettlesTheAttempt(s: Snapshot)
    requires Valid(s) && s.active.Some?
    ensures
      var r := C.Recover(s, s.configurationId, s.generation);
      var commit := C.Commit(s, s.active.value.fence);
      if Disposition(s.active.value) == DoCommit then
        && r.next == commit.next
        && (r.result.Ok? <==> s.generation < MAX_U64)
        && (r.result.Err? ==> r.result.error == GenerationOverflow && r.next == s)
      else
        && r.result.Ok? && r.result.value.ReplayFromCommitted?
        && r.next == s.(active := None)
        && commit.result.Err? && commit.next == s
  {
  }

  // ---- collection and delivery commute --------------------------------------------------------

  predicate IsCollection(call: Call) {
    call.CompleteCollection? || call.FailCollection?
  }

  predicate IsDelivery(call: Call) {
    call.ConfirmDelivery? || call.FailDelivery? || call.DoubtDelivery?
  }

  function Only(calls: seq<Call>, side: Call -> bool): seq<Call> {
    if calls == [] then []
    else
      var n := |calls| - 1;
      Only(calls[..n], side) + if side(calls[n]) then [calls[n]] else []
  }

  /** The replies that the calls of one side receive inside a larger run. */
  function SideReplies(s: Snapshot, calls: seq<Call>, side: Call -> bool): seq<Reply> {
    if calls == [] then []
    else
      var n := |calls| - 1;
      SideReplies(s, calls[..n], side) + if side(calls[n]) then [ReplyAt(s, calls, n)] else []
  }

  /** A delivery call neither reads nor writes the collection track. */
  lemma DeliveryIgnoresCollection(s: Snapshot, d: Call, collection: CollectionState)
    requires IsDelivery(d)
    requires Valid(s) && s.active.Some? && Valid(WithCollection(s, collection))
    ensures Apply(s, d).next.active.Some?
    ensures Apply(WithCollection(s, collection), d).reply == Apply(s, d).reply
    ensures Apply(WithCollection(s, collection), d).next == WithCollection(Apply(s, d).next, collection)
  {
  }

  /** A collection call neither reads nor writes the delivery track. */
  lemma CollectionIgnoresDelivery(s: Snapshot, c: Call, delivery: DeliveryState)
    requires IsCollection(c)
    requires Valid(s) && s.active.Some?
    ensures Apply(s, c).next.active.Some?
    ensures Apply(WithDelivery(s, delivery), c).reply == Apply(s, c).reply
    ensures Apply(WithDelivery(s, delivery), c).next == WithDelivery(Apply(s, c).next, delivery)
  {
  }

  lemma TracksAreSeparate(s: Snapshot, c: Call, d: Call)
    requires IsCollection(c) && IsDelivery(d)
    requires Valid(s) && s.active.Some?
    ensures Apply(s, c).next.active.Some? && Apply(s, d).next.active.Some?
    ensures Apply(s, c).next == WithCollection(s, Apply(s, c).next.active.value.collection)
    ensures Apply(s, d).next == WithDelivery(s, Apply(s, d).next.active.value.delivery)
  {
  }

  lemma NothingToRecord(s: Snapshot, call: Call)
    requires IsCollection(call) || IsDelivery(call)
    requires !Valid(s) || s.active.None?
    ensures Apply(s, call).next == s
  {
  }

  lemma PairCommutes(s: Snapshot, c: Call, d: Call)
    requires IsCollection(c) && IsDelivery(d)
    ensures Apply(Apply(s, c).next, d).next == Apply(Apply(s, d).next, c).next
    ensures Apply(Apply(s, d).next, c).reply == Apply(s, c).reply
    ensures Apply(Apply(s, c).next, d).reply == Apply(s, d).reply
  {
    if Valid(s) && s.active.Some? {
      TracksAreSeparate(s, c, d);
      ApplySafety(s, c);
      DeliveryIgnoresCollection(s, d, Apply(s, c).next.active.value.collection);
      CollectionIgnoresDelivery(s, c, Apply(s, d).next.active.value.delivery);
    } else {
      NothingToRecord(s, c);
      NothingToRecord(s, d);
    }
  }

  lemma {:induction false} CollectionPassesDeliveries(s: Snapshot, c: Call, ds: seq<Call>)
    requires IsCollection(c)
    requires forall i :: 0 <= i < |ds| ==> IsDelivery(ds[i])
    ensures Apply(After(s, ds), c).next == After(Apply(s, c).next, ds)
    ensures Apply(After(s, ds), c).reply == Apply(s, c).reply
  {
    if ds != [] {
      var n := |ds| - 1;
      CollectionPassesDeliveries(s, c, ds[..n]);
      PairCommutes(After(s, ds[..n]), c, ds[n]);
    }
  }

  lemma {:induction false} DeliveryPassesCollections(s: Snapshot, d: Call, cs: seq<Call>)
    requires IsDelivery(d)
    requires forall i :: 0 <= i < |cs| ==> IsCollection(cs[i])
    ensures Apply(After(s, cs), d).reply == Apply(s, d).reply
    ensures After(Apply(s, d).next, cs) == Apply(After(s, cs), d).next
  {
    if cs != [] {
      var n := |cs| - 1;
      DeliveryPassesCollections(s, d, cs[..n]);
      PairCommutes(After(s, cs[..n]), cs[n], d);
    }
  }

  lemma {:induction false} OnlySatisfies(calls: seq<Call>, side: Call -> bool)
    ensures forall i :: 0 <= i < |Only(calls, side)| ==> side(Only(calls, side)[i])
  {
    if calls != [] {
      OnlySatisfies(calls[..|calls| - 1], side);
    }
  }

  lemma {:induction false} DeliveriesAfterCollections(s: Snapshot, cs: seq<Call>, ds: seq<Call>)
    requires forall i :: 0 <= i < |cs| ==> IsCollection(cs[i])
    requires forall i :: 0 <= i < |ds| ==> IsDelivery(ds[i])
    ensures After(After(s, cs), ds) == After(After(s, ds), cs)
  {
    if cs != [] {
      var n := |cs| - 1;
      DeliveriesAfterCollections(s, cs[..n], ds);
      CollectionPassesDeliveries(After(s, cs[..n]), cs[n], ds);
    }
  }

  /** A mixed run ends where running all its collection calls and then all its delivery calls ends. */
  lemma {:induction false} RunSeparates(s: Snapshot, calls: seq<Call>)
    requires forall i :: 0 <= i < |calls| ==> IsCollection(calls[i]) || IsDelivery(calls[i])
    ensures After(s, calls) == After(After(s, Only(calls, IsCollection)), Only(calls, IsDelivery))
    ensures SideReplies(s, calls, IsCollection) == SideReplies(s, Only(calls, IsCollection), IsCollection)
    ensures SideReplies(s, calls, IsDelivery) == SideReplies(s, Only(calls, IsDelivery), IsDelivery)
  {
    if calls != [] {
      var n := |calls| - 1;
      var prefix, call := calls[..n], calls[n];
      RunSeparates(s, prefix);
      OnlySatisfies(prefix, IsCollection);
      OnlySatisfies(prefix, IsDelivery);
      var cs, ds := Only(prefix, IsCollection), Only(prefix, IsDelivery);
      if IsCollection(call) {
        PrefixFacts(s, cs, call);
        CollectionPassesDeliveries(After(s, cs), call, ds);
        assert Only(calls, IsCollection) == cs + [call];
        assert Only(calls, IsDelivery) == ds;
      } else {
        PrefixFacts(s, ds, call);
        DeliveriesAfterCollections(s, cs, ds);
        DeliveryPassesCollections(After(s, ds), call, cs);
        PrefixFacts(After(s, cs), ds, call);
        assert Only(calls, IsCollection) == cs;
        assert Only(calls, IsDelivery) == ds + [call];
      }
    }
  }

  /**
   Confluence: two interleavings of the same collection calls with the same delivery calls give
   every call the same reply, end in the same snapshot, and leave every commit the same outcome.
   */
  lemma Confluence(s: Snapshot, xs: seq<Call>, ys: seq<Call>, fence: AttemptFence)
    requires forall i :: 0 <= i < |xs| ==> IsCollection(xs[i]) || IsDelivery(xs[i])
    requires forall i :: 0 <= i < |ys| ==> IsCollection(ys[i]) || IsDelivery(ys[i])
    requires Only(xs, IsCollection) == Only(ys, IsCollection)
    requires Only(xs, IsDelivery) == Only(ys, IsDelivery)
    ensures After(s, xs) == After(s, ys)
    ensures SideReplies(s, xs, IsCollection) == SideReplies(s, ys, IsCollection)
    ensures SideReplies(s, xs, IsDelivery) == SideReplies(s, ys, IsDelivery)
    ensures C.Commit(After(s, xs), fence) == C.Commit(After(s, ys), fence)
  {
    RunSeparates(s, xs);
    RunSeparates(s, ys);
  }
}
