/** What a sink that keeps one event per event id ends up with. */
module EventDedup {
  import opened Wrappers
  import opened Cursors
  import opened Identity
  import opened CursorCodec
  import opened Source
  import opened Domains
  import opened Preimages
  import opened Protocol
  import opened Invariant
  import opened Safety
  import M = MetadataCodec

  /** An acknowledged event: its id, fixed when its page was sealed, and the row it carries. */
  datatype Event = Event(id: Bytes, row: Row)

  function EventOf(keys: EventKeys, row: Row): Event {
    Event(RisingEventPreimage(keys, row.cursor), row)
  }

  function Events(keys: EventKeys, log: seq<Row>): seq<Event> {
    seq(|log|, i requires 0 <= i < |log| => EventOf(keys, log[i]))
  }

  predicate Seen(events: seq<Event>, id: Bytes) {
    exists i :: 0 <= i < |events| && events[i].id == id
  }

  /** The sink drops an event whose id it has. */
  function Kept(events: seq<Event>): seq<Row> {
    if events == [] then []
    else
      var n := |events| - 1;
      Kept(events[..n]) + if Seen(events[..n], events[n].id) then [] else [events[n].row]
  }

  /** Within one source, an id stands for one row. */
  lemma IdIsTheRow(keys: EventKeys, source: seq<Row>, a: Row, b: Row)
    requires Sorted(source) && a in source && b in source
    ensures EventOf(keys, a).id == EventOf(keys, b).id <==> a == b
  {
    if EventOf(keys, a).id == EventOf(keys, b).id {
      DomainsSeparate(RisingEvent, RisingEvent, RisingEventContent(keys, a.cursor), RisingEventContent(keys, b.cursor));
      var fixed := keys.input + keys.lineage + keys.cursorIdentity;
      SameLengthSplits(fixed, fixed, Canonical(a.cursor), Canonical(b.cursor));
      CanonicalIsInjective(a.cursor, b.cursor);
      SameCursorSameRow(source, a, b);
    }
  }

  lemma SameCursorSameRow(source: seq<Row>, a: Row, b: Row)
    requires Sorted(source) && a in source && b in source && a.cursor == b.cursor
    ensures a == b
  {
    var i :| 0 <= i < |source| && source[i] == a;
    var j :| 0 <= j < |source| && source[j] == b;
    assert !(i < j) && !(j < i);
  }

  lemma SeenIsMember(keys: EventKeys, source: seq<Row>, log: seq<Row>, row: Row)
    requires Sorted(source) && row in source && forall x :: x in log ==> x in source
    ensures Seen(Events(keys, log), EventOf(keys, row).id) <==> row in log
  {
    var id := EventOf(keys, row).id;
    if Seen(Events(keys, log), id) {
      var i :| 0 <= i < |log| && Events(keys, log)[i].id == id;
      IdIsTheRow(keys, source, log[i], row);
    }
    if row in log {
      var i :| 0 <= i < |log| && log[i] == row;
      assert Events(keys, log)[i].id == id;
    }
  }

  /** De-duplicating by id is de-duplicating by row. */
  lemma {:induction false} KeptIsDedup(keys: EventKeys, source: seq<Row>, log: seq<Row>)
    requires Sorted(source) && forall x :: x in log ==> x in source
    ensures Kept(Events(keys, log)) == Dedup(log)
  {
    if log != [] {
      var n := |log| - 1;
      KeptIsDedup(keys, source, log[..n]);
      assert Events(keys, log)[..n] == Events(keys, log[..n]);
      SeenIsMember(keys, source, log[..n], log[n]);
    }
  }

  // ---- events as a run sends them -------------------------------------------------------------

  /** The identity a segment was sealed under: that of the configuration whose worker sealed it. */
  function Tagged(tags: map<SegmentId, SourceIdentity>, w: World, next: World): map<SegmentId, SourceIdentity> {
    map id | id in next.spool :: if id in w.spool && id in tags then tags[id] else w.prepared.identity
  }

  function Tags(worlds: seq<World>): map<SegmentId, SourceIdentity>
    requires worlds != []
  {
    if |worlds| == 1 then map[]
    else
      var n := |worlds| - 1;
      Tagged(Tags(worlds[..n]), worlds[n - 1], worlds[n])
  }

  /** What one step sends, under the ids that were fixed when its segment was sealed. */
  function NewEvents(
      keysOf: SourceIdentity -> EventKeys, tags: map<SegmentId, SourceIdentity>, w: World, next: World): seq<Event>
  {
    if w.sending.Some? && w.sending.value.id in tags && |w.log| <= |next.log| then
      Events(keysOf(tags[w.sending.value.id]), next.log[|w.log|..])
    else []
  }

  /** Every event the sink acknowledged in a run, in order; `keysOf` hashes an identity. */
  function EventLog(keysOf: SourceIdentity -> EventKeys, worlds: seq<World>): seq<Event>
    requires worlds != []
  {
    if |worlds| == 1 then []
    else
      var n := |worlds| - 1;
      EventLog(keysOf, worlds[..n]) + NewEvents(keysOf, Tags(worlds[..n]), worlds[n - 1], worlds[n])
  }

  /** Every retained segment was sealed under the identity of the state. */
  ghost predicate TagsAgree(tags: map<SegmentId, SourceIdentity>, w: World) {
    forall id :: id in w.spool ==> id in tags && w.store.Some? && tags[id] == w.store.value.identity
  }

  lemma OnlySealingAdds(w: World, a: Action, id: SegmentId)
    requires Enabled(w, a) && id in Effect(w, a).spool && id !in w.spool
    ensures w.worker.Collected?
  {
  }

  lemma WorkerWantsPage(w: World)
    requires Inv(w) && w.worker.Collected?
    ensures WantsPage(w)
  {
  }

  /** Only a worker of the stored identity adds a segment. */
  lemma NewSegmentIdentity(w: World, next: World, id: SegmentId)
    requires Inv(w) && StepsTo(w, next) && id in next.spool && id !in w.spool
    ensures w.store.Some? && w.prepared.identity == w.store.value.identity
  {
    assert w.worker.Collected? by {
      var a :| Enabled(w, a) && Effect(w, a) == next;
      OnlySealingAdds(w, a, id);
    }
    WorkerWantsPage(w);
  }

  lemma SpoolNeedsState(w: World)
    requires Inv(w) && w.spool != map[]
    ensures w.store.Some?
  {
  }

  lemma StepKeepsTags(tags: map<SegmentId, SourceIdentity>, w: World, next: World)
    requires Inv(w) && StepsTo(w, next) && TagsAgree(tags, w)
    ensures TagsAgree(Tagged(tags, w, next), next)
  {
    forall id | id in next.spool
      ensures next.store.Some? && Tagged(tags, w, next)[id] == next.store.value.identity
    {
      if id in w.spool {
        SpoolNeedsState(w);
      } else {
        NewSegmentIdentity(w, next, id);
      }
      StepKeepsIdentity(w, next);
    }
  }

  /** A step sends nothing, or part of the segment being sent. */
  lemma StepExtendsLog(w: World, next: World)
    requires StepsTo(w, next)
    ensures w.log <= next.log
    ensures next.log != w.log ==> w.sending.Some? && w.sending.value.id in w.spool
  {
    var a :| Enabled(w, a) && Effect(w, a) == next;
    ActionExtendsLog(w, a);
  }

  lemma ActionExtendsLog(w: World, a: Action)
    requires Enabled(w, a)
    ensures w.log <= Effect(w, a).log
    ensures Effect(w, a).log != w.log ==> w.sending.Some? && w.sending.value.id in w.spool
  {
  }

  lemma EventsJoin(keys: EventKeys, a: seq<Row>, b: seq<Row>)
    ensures Events(keys, a + b) == Events(keys, a) + Events(keys, b)
  {
  }

  /** The identity a run settles on: that of its state, once there is one. */
  function IdentityOf(w: World): SourceIdentity {
    if w.store.Some? then w.store.value.identity else w.prepared.identity
  }

  lemma NoStateNoLog(w: World)
    requires Inv(w) && w.store.None?
    ensures w.log == []
  {
  }

  lemma PrefixIsRun(worlds: seq<World>, n: nat)
    requires Run(worlds) && 0 < n <= |worlds|
    ensures Run(worlds[..n])
  {
    var part := worlds[..n];
    forall i | 0 <= i < n - 1
      ensures StepsTo(part[i], part[i + 1])
    {
      assert StepsTo(worlds[i], worlds[i + 1]);
    }
  }

  /** The run without its last step. */
  lemma ShorterRun(worlds: seq<World>)
    requires Run(worlds) && Initial(worlds[0]) && |worlds| > 1
    ensures
      var part := worlds[..|worlds| - 1];
      && Run(part) && Initial(part[0])
      && part[|part| - 1] == worlds[|worlds| - 2]
      && Inv(worlds[|worlds| - 2])
      && StepsTo(worlds[|worlds| - 2], worlds[|worlds| - 1])
  {
    var m := |worlds| - 2;
    PrefixIsRun(worlds, m + 1);
    InitialInv(worlds[0]);
    RunKeepsInv(worlds, m);
    assert StepsTo(worlds[m], worlds[m + 1]);
  }

  lemma {:induction false} TagsAlwaysAgree(worlds: seq<World>)
    requires Run(worlds) && Initial(worlds[0])
    ensures TagsAgree(Tags(worlds), worlds[|worlds| - 1])
    decreases |worlds|
  {
    var n := |worlds| - 1;
    if n > 0 {
      ShorterRun(worlds);
      TagsAlwaysAgree(worlds[..n]);
      StepKeepsTags(Tags(worlds[..n]), worlds[n - 1], worlds[n]);
    }
  }

  /**
   However the run went on, through crashes, new attempts and other configurations: the events it
   sent carry the ids of one identity, and their rows are the log.
   */
  lemma {:induction false} EventLogIsTheLog(keysOf: SourceIdentity -> EventKeys, worlds: seq<World>)
    requires Run(worlds) && Initial(worlds[0])
    ensures
      var w := worlds[|worlds| - 1];
      EventLog(keysOf, worlds) == Events(keysOf(IdentityOf(w)), w.log)
    decreases |worlds|
  {
    var n := |worlds| - 1;
    if n > 0 {
      ShorterRun(worlds);
      EventLogIsTheLog(keysOf, worlds[..n]);
      TagsAlwaysAgree(worlds[..n]);
      OneMoreStep(keysOf, Tags(worlds[..n]), worlds[n - 1], worlds[n]);
    }
  }

  lemma OneMoreStep(keysOf: SourceIdentity -> EventKeys, tags: map<SegmentId, SourceIdentity>, w: World, next: World)
    requires Inv(w) && StepsTo(w, next) && TagsAgree(tags, w)
    ensures Events(keysOf(IdentityOf(w)), w.log) + NewEvents(keysOf, tags, w, next) == Events(keysOf(IdentityOf(next)), next.log)
  {
    StepExtendsLog(w, next);
    if w.store.None? {
      NoStateNoLog(w);
      assert next.log == [];
    } else {
      StepKeepsIdentity(w, next);
      EventsJoin(keysOf(IdentityOf(w)), w.log, next.log[|w.log|..]);
      assert next.log == w.log + next.log[|w.log|..];
    }
  }

  /**
   Exactly once, as the sink sees it: whatever was replayed, rescanned or split into other pages by
   other attempts, the events kept by id, cut at the committed cursor, are the source rows up to
   it, each once and in source order.
   */
  lemma ExactlyOnceById(worlds: seq<World>, w: World, keysOf: SourceIdentity -> EventKeys)
    requires Trace(worlds, w) && CommittedCursor(w).Some?
    ensures
      var c := CommittedCursor(w).value;
      UpTo(Kept(EventLog(keysOf, worlds)), c) == w.source[..Through(w.source, Some(c))]
  {
    assert Reachable(w);
    EventLogIsTheLog(keysOf, worlds);
    LogIsFromSource(w);
    KeptIsDedup(keysOf(IdentityOf(w)), w.source, w.log);
    ExactlyOnceAfterDedup(w);
  }

  lemma LogIsFromSource(w: World)
    requires Reachable(w)
    ensures Sorted(w.source) && forall x :: x in w.log ==> x in w.source
  {
    ReachableInv(w);
    forall x | x in w.log
      ensures x in w.source
    {
      DedupKeepsMembers(w.log, x);
      assert x in Dedup(w.log);
    }
  }

  /** The metadata constructor accepts what any page reports, so a worker can always seal it. */
  lemma CollectedPageIsConstructible(
      source: seq<Row>, bound: Option<Bound>, committed: Option<Cursor>, maxRows: nat, fingerprint: Bytes)
    requires maxRows >= 1 && |fingerprint| == M.FINGERPRINT_BYTES && !M.AllZero(fingerprint)
    requires |Collect(source, bound, committed, maxRows).rows| <= MAX_U64
    ensures
      var page := Collect(source, bound, committed, maxRows);
      var m := M.Metadata(|page.rows|, page.truncated, fingerprint, page.candidate, page.resume);
      M.Constructible(m) && M.Decode(M.Encoded(m)) == Ok(m)
  {
    var page := Collect(source, bound, committed, maxRows);
    var m := M.Metadata(|page.rows|, page.truncated, fingerprint, page.candidate, page.resume);
    M.DecodeEncoded(m);
  }
}
