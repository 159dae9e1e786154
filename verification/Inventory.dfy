/** Indexing the retained segments and turning them into a recovery plan. */
module Inventory {
  import opened Wrappers
  import opened Identity
  import opened Spool
  import opened C = Checkpoint
  import opened DurableState
  import opened Rising

  /** What a reconciliation has to do: a page to adopt, segments to deliver, segments to compact. */
  datatype Plan = Plan(orphan: Option<Segment>, pending: map<U64, Located>, receipted: seq<Segment>)

  function IndexReady(ready: seq<Segment>): Store {
    if ready == [] then map[]
    else
      var n := |ready| - 1;
      IndexReady(ready[..n])[ready[n].id := Ready(ready[n])]
  }

  /** The spool that two listings describe. */
  function Index(ready: seq<Segment>, delivered: seq<Segment>): Store {
    if delivered == [] then IndexReady(ready)
    else
      var n := |delivered| - 1;
      Index(ready, delivered[..n])[delivered[n].id := Delivered(delivered[n])]
  }

  predicate DistinctIds(segments: seq<Segment>) {
    forall i, j :: 0 <= i < j < |segments| ==> segments[i].id != segments[j].id
  }

  predicate AllInFence(state: InputState, segments: seq<Segment>) {
    forall i :: 0 <= i < |segments| ==> InFence(state, segments[i])
  }

  lemma {:induction false} IndexReadyKeys(ready: seq<Segment>, id: SegmentId)
    ensures id in IndexReady(ready) <==> exists i :: 0 <= i < |ready| && ready[i].id == id
    ensures id in IndexReady(ready) ==> IndexReady(ready)[id].Ready? && IndexReady(ready)[id].segment in ready
    ensures id in IndexReady(ready) ==> IndexReady(ready)[id].segment.id == id
  {
    if ready != [] {
      var n := |ready| - 1;
      IndexReadyKeys(ready[..n], id);
      assert ready == ready[..n] + [ready[n]];
      if id in IndexReady(ready[..n]) {
        var i :| 0 <= i < n && ready[..n][i].id == id;
        assert ready[i].id == id;
      }
    }
  }

  lemma {:induction false} IndexKeys(ready: seq<Segment>, delivered: seq<Segment>, id: SegmentId)
    ensures id in Index(ready, delivered) <==>
              exists i :: 0 <= i < |ready + delivered| && (ready + delivered)[i].id == id
    ensures id in Index(ready, delivered) ==>
              Index(ready, delivered)[id].segment in ready + delivered && Index(ready, delivered)[id].segment.id == id
  {
    if delivered == [] {
      assert ready + delivered == ready;
      IndexReadyKeys(ready, id);
    } else {
      var n := |delivered| - 1;
      IndexKeys(ready, delivered[..n], id);
      assert ready + delivered == ready + delivered[..n] + [delivered[n]];
      assert (ready + delivered)[|ready| + n] == delivered[n];
      if id in Index(ready, delivered[..n]) {
        var i :| 0 <= i < |ready + delivered[..n]| && (ready + delivered[..n])[i].id == id;
        assert (ready + delivered)[i].id == id;
      }
    }
  }

  /** `segment` may join the ones indexed so far: it is in the fence and its id is new. */
  predicate Joins(state: InputState, indexed: seq<Segment>, segment: Segment) {
    InFence(state, segment) && forall i :: 0 <= i < |indexed| ==> indexed[i].id != segment.id
  }

  predicate Indexable(state: InputState, segments: seq<Segment>) {
    AllInFence(state, segments) && DistinctIds(segments)
  }

  lemma IndexableMore(state: InputState, segments: seq<Segment>, n: nat)
    requires n < |segments|
    ensures Indexable(state, segments[..n + 1]) <==>
              Indexable(state, segments[..n]) && Joins(state, segments[..n], segments[n])
    ensures Indexable(state, segments) ==> Indexable(state, segments[..n + 1])
  {
    var more := segments[..n + 1];
    assert more[n] == segments[n];
    if Indexable(state, more) {
      assert forall i :: 0 <= i < n ==> segments[..n][i] == more[i];
    }
  }

  /** One more ready segment either joins the index or is refused. */
  lemma IndexReadyStep(state: InputState, ready: seq<Segment>, i: nat)
    requires i < |ready| && Indexable(state, ready[..i])
    ensures Indexable(state, ready[..i + 1]) <==>
              InFence(state, ready[i]) && ready[i].id !in IndexReady(ready[..i])
    ensures IndexReady(ready[..i + 1]) == IndexReady(ready[..i])[ready[i].id := Ready(ready[i])]
    ensures Indexable(state, ready) ==> Indexable(state, ready[..i + 1])
  {
    IndexableMore(state, ready, i);
    IndexReadyKeys(ready[..i], ready[i].id);
    assert ready[..i + 1][..i] == ready[..i];
  }

  lemma IndexDeliveredStep(state: InputState, ready: seq<Segment>, delivered: seq<Segment>, i: nat)
    requires i < |delivered| && Indexable(state, ready + delivered[..i])
    ensures Indexable(state, ready + delivered[..i + 1]) <==>
              InFence(state, delivered[i]) && delivered[i].id !in Index(ready, delivered[..i])
    ensures Index(ready, delivered[..i + 1]) == Index(ready, delivered[..i])[delivered[i].id := Delivered(delivered[i])]
    ensures Indexable(state, ready + delivered) ==> Indexable(state, ready + delivered[..i + 1])
  {
    var all := ready + delivered;
    IndexableMore(state, all, |ready| + i);
    IndexKeys(ready, delivered[..i], delivered[i].id);
    assert all[..|ready| + i] == ready + delivered[..i];
    assert all[..|ready| + i + 1] == ready + delivered[..i + 1];
    assert delivered[..i + 1][..i] == delivered[..i];
  }

  lemma IndexablePart(state: InputState, ready: seq<Segment>, delivered: seq<Segment>)
    requires Indexable(state, ready + delivered)
    ensures Indexable(state, ready)
  {
    var all := ready + delivered;
    assert forall i :: 0 <= i < |ready| ==> ready[i] == all[i];
  }

  method IndexReadySegments(state: InputState, ready: seq<Segment>) returns (r: Result<Store, RisingError>)
    ensures r.Ok? <==> Indexable(state, ready)
    ensures r.Ok? ==> r.value == IndexReady(ready)
  {
    var byId: Store := map[];
    for i := 0 to |ready|
      invariant byId == IndexReady(ready[..i])
      invariant Indexable(state, ready[..i])
    {
      IndexReadyStep(state, ready, i);
      if !InFence(state, ready[i]) || ready[i].id in byId {
        return Err(InventoryConflict);
      }
      byId := byId[ready[i].id := Ready(ready[i])];
    }
    assert ready[..|ready|] == ready;
    return Ok(byId);
  }

  /** Rejects a segment outside the active fence, and an id met twice. */
  method IndexInventory(state: InputState, ready: seq<Segment>, delivered: seq<Segment>)
    returns (r: Result<Store, RisingError>)
    ensures r.Ok? <==> Indexable(state, ready + delivered)
    ensures r.Ok? ==> r.value == Index(ready, delivered)
  {
    var indexed := IndexReadySegments(state, ready);
    if indexed.Err? {
      if Indexable(state, ready + delivered) {
        IndexablePart(state, ready, delivered);
      }
      return indexed;
    }
    var byId := indexed.value;
    assert ready + delivered[..0] == ready;
    for i := 0 to |delivered|
      invariant byId == Index(ready, delivered[..i])
      invariant Indexable(state, ready + delivered[..i])
    {
      IndexDeliveredStep(state, ready, delivered, i);
      if !InFence(state, delivered[i]) || delivered[i].id in byId {
        return Err(InventoryConflict);
      }
      byId := byId[delivered[i].id := Delivered(delivered[i])];
    }
    assert delivered[..|delivered|] == delivered;
    return Ok(byId);
  }

  // ---- the plan -------------------------------------------------------------------------------

  /** One of the first `upto` references carries a receipt and names `id`. */
  ghost predicate ReceiptedId(scan: ActiveScan, upto: nat, id: SegmentId)
    requires upto <= |scan.segments|
  {
    exists i :: 0 <= i < upto && scan.segments[i].segmentId == id && Receipted(scan, i)
  }

  predicate HasId(segments: seq<Segment>, id: SegmentId) {
    exists k :: 0 <= k < |segments| && segments[k].id == id
  }

  /** Segments the plan will compact first: delivered copies of receipted references, each once. */
  ghost predicate PlansReceipted(scan: ActiveScan, spool: Store, upto: nat, receipted: seq<Segment>)
    requires upto <= |scan.segments|
  {
    && (forall k :: 0 <= k < |receipted| ==>
          && receipted[k].id in spool && spool[receipted[k].id] == Delivered(receipted[k])
          && ReceiptedId(scan, upto, receipted[k].id))
    && (forall id :: id in spool && ReceiptedId(scan, upto, id) ==> HasId(receipted, id))
    && DistinctIds(receipted)
  }

  /** Segments the plan will deliver or receipt: the copy of every reference without a receipt. */
  ghost predicate PlansPending(scan: ActiveScan, spool: Store, upto: nat, pending: map<U64, Located>)
    requires upto <= |scan.segments|
  {
    && (forall i :: 0 <= i < upto && !Receipted(scan, i) ==>
          && scan.segments[i].segmentId in spool
          && scan.segments[i].sequence in pending
          && pending[scan.segments[i].sequence] == spool[scan.segments[i].segmentId])
    && (forall n :: n in pending ==> scan.deliveredThrough < n <= scan.compactedThrough + upto)
  }

  ghost predicate PlansOrphan(scan: ActiveScan, spool: Store, orphan: Option<Segment>) {
    match orphan
    case None => forall id :: id in spool ==> Referenced(scan, id)
    case Some(segment) =>
      && segment.id in spool && spool[segment.id] == Ready(segment) && !Referenced(scan, segment.id)
      && (forall id :: id in spool && !Referenced(scan, id) ==> id == segment.id)
  }

  ghost predicate PlansFor(state: InputState, spool: Store, plan: Plan) {
    match state.scan
    case None => plan == Plan(None, map[], [])
    case Some(scan) =>
      && PlansReceipted(scan, spool, |scan.segments|, plan.receipted)
      && PlansPending(scan, spool, |scan.segments|, plan.pending)
      && PlansOrphan(scan, spool, plan.orphan)
  }

  predicate CleanForCollection(plan: Plan) {
    plan.orphan.None? && plan.pending == map[] && plan.receipted == []
  }

  lemma SingletonKeys(m: Store, a: SegmentId, b: SegmentId)
    requires |m| == 1 && a in m && b in m
    ensures a == b
  {
    var keys := m.Keys;
    assert |keys| == 1;
    assert |keys - {a}| == 0;
    assert b !in keys - {a};
  }

  /** The page to adopt among the segments no reference names. */
  method AdoptableOrphan(scan: ActiveScan, byId: Store) returns (r: Result<Option<Segment>, RisingError>)
    requires forall id :: id in byId ==> byId[id].segment.id == id
    ensures r.Ok? <==>
      && (forall id :: id in byId ==> AdoptableRole(scan, byId[id]))
      && (forall a, b :: a in byId && b in byId ==> a == b)
    ensures r.Ok? ==>
      match r.value
      case None => byId == map[]
      case Some(segment) => segment.id in byId && byId[segment.id] == Ready(segment)
  {
    if |byId| == 0 {
      return Ok(None);
    } else if |byId| == 1 {
      var id :| id in byId;
      forall a, b | a in byId && b in byId
        ensures a == b
      {
        SingletonKeys(byId, a, b);
      }
      if AdoptableRole(scan, byId[id]) {
        return Ok(Some(byId[id].segment));
      }
      return Err(InventoryConflict);
    }
    var id :| id in byId;
    assert byId.Keys != {id} by {
      assert |{id}| == 1 && |byId.Keys| == |byId|;
    }
    var other :| other in byId && other != id;
    return Err(InventoryConflict);
  }

  /** The segments that none of the first `upto` references names. */
  ghost predicate LeftFrom(scan: ActiveScan, spool: Store, upto: nat, byId: Store)
    requires upto <= |scan.segments|
  {
    && (forall id :: id in byId <==> id in spool && forall i :: 0 <= i < upto ==> scan.segments[i].segmentId != id)
    && (forall id :: id in byId ==> byId[id] == spool[id])
  }

  lemma ReceiptedIdMore(scan: ActiveScan, i: nat, id: SegmentId)
    requires i < |scan.segments|
    ensures ReceiptedId(scan, i + 1, id) <==>
              ReceiptedId(scan, i, id) || (Receipted(scan, i) && scan.segments[i].segmentId == id)
  {
  }

  lemma PlansReceiptedSame(scan: ActiveScan, spool: Store, i: nat, receipted: seq<Segment>)
    requires i < |scan.segments| && (!Receipted(scan, i) || scan.segments[i].segmentId !in spool)
    requires PlansReceipted(scan, spool, i, receipted)
    ensures PlansReceipted(scan, spool, i + 1, receipted)
  {
    forall id | id in spool
      ensures ReceiptedId(scan, i + 1, id) <==> ReceiptedId(scan, i, id)
    {
      ReceiptedIdMore(scan, i, id);
    }
  }

  lemma HasIdMore(segments: seq<Segment>, segment: Segment, id: SegmentId)
    ensures HasId(segments + [segment], id) <==> HasId(segments, id) || segment.id == id
  {
    var more := segments + [segment];
    assert more[|segments|] == segment;
    if HasId(segments, id) {
      var k :| 0 <= k < |segments| && segments[k].id == id;
      assert more[k].id == id;
    }
  }

  lemma PlansReceiptedMore(scan: ActiveScan, spool: Store, i: nat, receipted: seq<Segment>, segment: Segment)
    requires CanonicalSegments(scan)
    requires i < |scan.segments| && Receipted(scan, i) && scan.segments[i].segmentId == segment.id
    requires segment.id in spool && spool[segment.id] == Delivered(segment)
    requires PlansReceipted(scan, spool, i, receipted)
    ensures PlansReceipted(scan, spool, i + 1, receipted + [segment])
  {
    forall id | id in spool
      ensures ReceiptedId(scan, i + 1, id) <==> ReceiptedId(scan, i, id) || segment.id == id
      ensures HasId(receipted + [segment], id) <==> HasId(receipted, id) || segment.id == id
    {
      ReceiptedIdMore(scan, i, id);
      HasIdMore(receipted, segment, id);
    }
    assert !ReceiptedId(scan, i, segment.id);
  }

  lemma PlansPendingMore(scan: ActiveScan, spool: Store, i: nat, pending: map<U64, Located>)
    requires CanonicalSegments(scan)
    requires i < |scan.segments| && !Receipted(scan, i) && scan.segments[i].segmentId in spool
    requires PlansPending(scan, spool, i, pending)
    ensures PlansPending(scan, spool, i + 1, pending[scan.segments[i].sequence := spool[scan.segments[i].segmentId]])
  {
  }

  lemma LeftFromMore(scan: ActiveScan, spool: Store, i: nat, byId: Store)
    requires i < |scan.segments| && LeftFrom(scan, spool, i, byId)
    ensures LeftFrom(scan, spool, i + 1, byId - {scan.segments[i].segmentId})
  {
  }

  lemma LeftFromHas(scan: ActiveScan, spool: Store, i: nat, byId: Store)
    requires CanonicalSegments(scan) && i < |scan.segments| && LeftFrom(scan, spool, i, byId)
    ensures scan.segments[i].segmentId in byId <==> scan.segments[i].segmentId in spool
    ensures scan.segments[i].segmentId in byId ==>
              byId[scan.segments[i].segmentId] == spool[scan.segments[i].segmentId]
  {
  }

  /** Pairs every reference with its retained copy; what is left has no reference. */
  method MatchReferences(scan: ActiveScan, spool: Store)
    returns (r: Result<(map<U64, Located>, seq<Segment>, Store), RisingError>)
    requires CanonicalSegments(scan)
    requires forall id :: id in spool ==> spool[id].segment.id == id
    ensures r.Ok? <==> forall i :: 0 <= i < |scan.segments| ==> AcceptsReference(scan, spool, i)
    ensures r.Ok? ==>
      && PlansPending(scan, spool, |scan.segments|, r.value.0)
      && PlansReceipted(scan, spool, |scan.segments|, r.value.1)
      && LeftFrom(scan, spool, |scan.segments|, r.value.2)
  {
    var byId := spool;
    var pending: map<U64, Located>, receipted: seq<Segment> := map[], [];
    for i := 0 to |scan.segments|
      invariant LeftFrom(scan, spool, i, byId)
      invariant forall j :: 0 <= j < i ==> AcceptsReference(scan, spool, j)
      invariant PlansReceipted(scan, spool, i, receipted)
      invariant PlansPending(scan, spool, i, pending)
    {
      var reference := scan.segments[i];
      LeftFromHas(scan, spool, i, byId);
      var located := if reference.segmentId in byId then Some(byId[reference.segmentId]) else None;
      if !(if Receipted(scan, i)
           then located.Some? ==> located.value.Delivered? && MatchesReference(scan, reference, located.value.segment)
           else located.Some? && MatchesReference(scan, reference, located.value.segment))
      {
        assert !AcceptsReference(scan, spool, i);
        return Err(InventoryConflict);
      }
      assert AcceptsReference(scan, spool, i);
      LeftFromMore(scan, spool, i, byId);
      byId := byId - {reference.segmentId};
      if Receipted(scan, i) && located.Some? {
        PlansReceiptedMore(scan, spool, i, receipted, located.value.segment);
        receipted := receipted + [located.value.segment];
      } else {
        PlansReceiptedSame(scan, spool, i, receipted);
      }
      if !Receipted(scan, i) {
        PlansPendingMore(scan, spool, i, pending);
        pending := pending[reference.sequence := located.value];
      }
    }
    return Ok((pending, receipted, byId));
  }

  /** Without a reference: what is left once every reference took its copy. */
  lemma LeftHasNoReference(scan: ActiveScan, spool: Store, byId: Store)
    requires LeftFrom(scan, spool, |scan.segments|, byId)
    ensures forall id :: id in byId <==> id in spool && !Referenced(scan, id)
  {
  }

  /** The part of the acceptance that is about one scan. */
  ghost predicate AcceptsScan(scan: ActiveScan, spool: Store) {
    && (forall i :: 0 <= i < |scan.segments| ==> AcceptsReference(scan, spool, i))
    && (forall id :: id in spool && !Referenced(scan, id) ==> AdoptableRole(scan, spool[id]))
    && (forall a, b :: a in spool && b in spool && !Referenced(scan, a) && !Referenced(scan, b) ==> a == b)
  }

  method PlanForScan(scan: ActiveScan, byId: Store) returns (r: Result<Plan, RisingError>)
    requires CanonicalSegments(scan)
    requires forall id :: id in byId ==> byId[id].segment.id == id
    ensures r.Ok? <==> AcceptsScan(scan, byId)
    ensures r.Ok? ==>
      && PlansReceipted(scan, byId, |scan.segments|, r.value.receipted)
      && PlansPending(scan, byId, |scan.segments|, r.value.pending)
      && PlansOrphan(scan, byId, r.value.orphan)
  {
    var matched :- MatchReferences(scan, byId);
    LeftHasNoReference(scan, byId, matched.2);
    var orphan :- AdoptableOrphan(scan, matched.2);
    return Ok(Plan(orphan, matched.0, matched.1));
  }

  /** Accepts exactly the inventories a recovery may work on, and says what there is to do. */
  method ValidateInventory(state: InputState, ready: seq<Segment>, delivered: seq<Segment>)
    returns (r: Result<Plan, RisingError>)
    requires state.scan.Some? ==> CanonicalSegments(state.scan.value)
    ensures r.Ok? <==> DistinctIds(ready + delivered) && AcceptsInventory(state, Index(ready, delivered))
    ensures r.Ok? ==> PlansFor(state, Index(ready, delivered), r.value)
  {
    var indexed := IndexInventory(state, ready, delivered);
    if indexed.Err? {
      IndexedRejects(state, ready, delivered);
      return Err(indexed.error);
    }
    var byId := indexed.value;
    IndexedInFence(state, ready, delivered);
    if state.scan.None? {
      if byId == map[] {
        return Ok(Plan(None, map[], []));
      }
      return Err(InventoryConflict);
    }
    r := PlanForScan(state.scan.value, byId);
    AcceptsInventoryIs(state, byId);
  }

  lemma AcceptsInventoryIs(state: InputState, spool: Store)
    requires state.scan.Some?
    requires forall id :: id in spool ==> spool[id].segment.id == id && InFence(state, spool[id].segment)
    ensures AcceptsInventory(state, spool) <==> AcceptsScan(state.scan.value, spool)
  {
  }

  lemma IndexedInFence(state: InputState, ready: seq<Segment>, delivered: seq<Segment>)
    requires AllInFence(state, ready + delivered)
    ensures
      var spool := Index(ready, delivered);
      forall id :: id in spool ==> spool[id].segment.id == id && InFence(state, spool[id].segment)
  {
    var spool := Index(ready, delivered);
    forall id | id in spool
      ensures spool[id].segment.id == id && InFence(state, spool[id].segment)
    {
      IndexKeys(ready, delivered, id);
    }
  }

  lemma IndexedRejects(state: InputState, ready: seq<Segment>, delivered: seq<Segment>)
    requires !(AllInFence(state, ready + delivered) && DistinctIds(ready + delivered))
    ensures !(DistinctIds(ready + delivered) && AcceptsInventory(state, Index(ready, delivered)))
  {
    if DistinctIds(ready + delivered) && AcceptsInventory(state, Index(ready, delivered)) {
      forall i | 0 <= i < |ready + delivered|
        ensures InFence(state, (ready + delivered)[i])
      {
        var segment := (ready + delivered)[i];
        IndexKeys(ready, delivered, segment.id);
        var found := Index(ready, delivered)[segment.id].segment;
        var j :| 0 <= j < |ready + delivered| && (ready + delivered)[j] == found;
        assert i == j;
      }
    }
  }

  // ---- listing the spool ----------------------------------------------------------------------

  /** The two listings name every retained segment once. */
  ghost predicate Lists(spool: Store, ready: seq<Segment>, delivered: seq<Segment>) {
    DistinctIds(ready + delivered) && Index(ready, delivered) == spool
  }

  function Part(spool: Store, ready: bool, ids: set<SegmentId>): Store {
    map id | id in spool && spool[id].Ready? == ready && id in ids :: spool[id]
  }

  lemma DistinctMore(segments: seq<Segment>, segment: Segment)
    requires DistinctIds(segments) && !HasId(segments, segment.id)
    ensures DistinctIds(segments + [segment])
  {
  }

  lemma ListReadyMore(spool: Store, ready: seq<Segment>, ids: set<SegmentId>, id: SegmentId)
    requires id in spool && spool[id].Ready? && spool[id].segment.id == id && id !in ids
    requires DistinctIds(ready) && IndexReady(ready) == Part(spool, true, ids)
    ensures DistinctIds(ready + [spool[id].segment])
    ensures IndexReady(ready + [spool[id].segment]) == Part(spool, true, ids + {id})
  {
    IndexReadyKeys(ready, id);
    DistinctMore(ready, spool[id].segment);
    assert (ready + [spool[id].segment])[..|ready|] == ready;
  }

  lemma ListDeliveredMore(spool: Store, ready: seq<Segment>, delivered: seq<Segment>, ids: set<SegmentId>, id: SegmentId)
    requires id in spool && spool[id].Delivered? && spool[id].segment.id == id && id !in ids
    requires DistinctIds(ready + delivered)
    requires Index(ready, delivered) == Part(spool, true, spool.Keys) + Part(spool, false, ids)
    ensures DistinctIds(ready + (delivered + [spool[id].segment]))
    ensures Index(ready, delivered + [spool[id].segment]) == Part(spool, true, spool.Keys) + Part(spool, false, ids + {id})
  {
    IndexKeys(ready, delivered, id);
    DistinctMore(ready + delivered, spool[id].segment);
    assert ready + (delivered + [spool[id].segment]) == ready + delivered + [spool[id].segment];
    assert (delivered + [spool[id].segment])[..|delivered|] == delivered;
  }

  lemma PartsBegin(spool: Store)
    ensures Part(spool, true, {}) == map[]
    ensures Part(spool, true, spool.Keys) + Part(spool, false, {}) == Part(spool, true, spool.Keys)
    ensures Part(spool, true, spool.Keys) + Part(spool, false, spool.Keys) == spool
  {
  }

  lemma PartSkips(spool: Store, ready: bool, ids: set<SegmentId>, id: SegmentId)
    requires id in spool && spool[id].Ready? != ready
    ensures Part(spool, ready, ids + {id}) == Part(spool, ready, ids)
  {
  }

  method ListReady(spool: Store) returns (ready: seq<Segment>)
    requires forall id :: id in spool ==> spool[id].segment.id == id
    ensures DistinctIds(ready) && IndexReady(ready) == Part(spool, true, spool.Keys)
  {
    ghost var done: set<SegmentId> := {};
    var todo := spool.Keys;
    ready := [];
    while todo != {}
      invariant done + todo == spool.Keys && done !! todo
      invariant DistinctIds(ready) && IndexReady(ready) == Part(spool, true, done)
      decreases |todo|
    {
      var id :| id in todo;
      if spool[id].Ready? {
        ListReadyMore(spool, ready, done, id);
        ready := ready + [spool[id].segment];
      } else {
        PartSkips(spool, true, done, id);
      }
      todo, done := todo - {id}, done + {id};
    }
  }

  ghost predicate Listed(spool: Store, ready: seq<Segment>, delivered: seq<Segment>, ids: set<SegmentId>) {
    && DistinctIds(ready + delivered)
    && Index(ready, delivered) == Part(spool, true, spool.Keys) + Part(spool, false, ids)
  }

  lemma ListedMore(spool: Store, ready: seq<Segment>, delivered: seq<Segment>, ids: set<SegmentId>, id: SegmentId)
    requires Listed(spool, ready, delivered, ids)
    requires id in spool && spool[id].segment.id == id && id !in ids
    ensures Listed(
              spool, ready,
              if spool[id].Delivered? then delivered + [spool[id].segment] else delivered, ids + {id})
  {
    if spool[id].Delivered? {
      ListDeliveredMore(spool, ready, delivered, ids, id);
    } else {
      PartSkips(spool, false, ids, id);
    }
  }

  lemma ListedBegins(spool: Store, ready: seq<Segment>)
    requires DistinctIds(ready) && IndexReady(ready) == Part(spool, true, spool.Keys)
    ensures Listed(spool, ready, [], {})
  {
    PartsBegin(spool);
    assert ready + [] == ready;
  }

  lemma ListedEnds(spool: Store, ready: seq<Segment>, delivered: seq<Segment>)
    requires Listed(spool, ready, delivered, spool.Keys)
    ensures Lists(spool, ready, delivered)
  {
    PartsBegin(spool);
  }

  method ListDelivered(spool: Store, ghost ready: seq<Segment>) returns (delivered: seq<Segment>)
    requires forall id :: id in spool ==> spool[id].segment.id == id
    requires DistinctIds(ready) && IndexReady(ready) == Part(spool, true, spool.Keys)
    ensures Lists(spool, ready, delivered)
  {
    ghost var done: set<SegmentId> := {};
    var todo := spool.Keys;
    delivered := [];
    ListedBegins(spool, ready);
    while todo != {}
      invariant done + todo == spool.Keys && done !! todo
      invariant Listed(spool, ready, delivered, done)
      decreases |todo|
    {
      var id :| id in todo;
      ListedMore(spool, ready, delivered, done, id);
      delivered := if spool[id].Delivered? then delivered + [spool[id].segment] else delivered;
      todo, done := todo - {id}, done + {id};
    }
    assert done == spool.Keys;
    ListedEnds(spool, ready, delivered);
  }

  /** The ready and the delivered segments of the spool, each listing in any order. */
  method ListSegments(spool: Store) returns (ready: seq<Segment>, delivered: seq<Segment>)
    requires forall id :: id in spool ==> spool[id].segment.id == id
    ensures Lists(spool, ready, delivered)
  {
    ready := ListReady(spool);
    delivered := ListDelivered(spool, ready);
  }
}
