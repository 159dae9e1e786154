/** Grouping the events of a segment into request bodies: greedy, newline-separated, within limits. */
module Batching {
  import opened Wrappers
  import Source

  const NEWLINE: U8 := '\n' as int

  datatype Limits = Limits(maxEvents: nat, maxBytes: nat)

  /** A body under construction, with the events counted into it. */
  datatype Batch = Batch(body: Bytes, events: nat)

  function Add(body: Bytes, event: Bytes): Bytes {
    if body == [] then event else body + [NEWLINE] + event
  }

  predicate Overflows(current: Batch, event: Bytes, limits: Limits) {
    current.events == limits.maxEvents || |Add(current.body, event)| > limits.maxBytes
  }

  /** The requests the delivery makes, whatever the events are. */
  function Requests(current: Batch, rest: seq<Bytes>, limits: Limits): seq<Batch>
    decreases |rest|
  {
    if rest == [] then if current.body == [] then [] else [current]
    else if Overflows(current, rest[0], limits) then [current] + Requests(Batch(rest[0], 1), rest[1..], limits)
    else Requests(Batch(Add(current.body, rest[0]), current.events + 1), rest[1..], limits)
  }

  function Plan(events: seq<Bytes>, limits: Limits): seq<Batch> {
    Requests(Batch([], 0), events, limits)
  }

  function Bodies(batches: seq<Batch>): (bodies: seq<Bytes>)
    ensures |bodies| == |batches|
  {
    if batches == [] then [] else [batches[0].body] + Bodies(batches[1..])
  }

  function Counted(batches: seq<Batch>): nat {
    if batches == [] then 0 else batches[0].events + Counted(batches[1..])
  }

  predicate NoneTooLong(events: seq<Bytes>, limits: Limits) {
    forall i :: 0 <= i < |events| ==> |events[i]| <= limits.maxBytes
  }

  // ---- delivery -------------------------------------------------------------------------------

  datatype DeliveryError = EventTooLong | Cancelled | RequestFailed | Accounting

  /** A sink whose answers and whose caller's cancellation are decided by a schedule. */
  class Sink {
    ghost var bodies: seq<Bytes>
    var ticks: nat
    const stops: nat -> bool
    const unreported: nat -> bool

    constructor (stops: nat -> bool, unreported: nat -> bool)
      ensures bodies == [] && ticks == 0 && this.stops == stops && this.unreported == unreported
    {
      this.bodies := [];
      this.ticks := 0;
      this.stops := stops;
      this.unreported := unreported;
    }

    ghost predicate Undisturbed(since: nat)
      reads this
    {
      forall n :: since <= n < ticks ==> !stops(n)
    }

    method EnsureActive() returns (r: Result<(), DeliveryError>)
      modifies this
      ensures bodies == old(bodies) && ticks == old(ticks) + 1
      ensures r.Ok? <==> !stops(old(ticks))
    {
      ticks := ticks + 1;
      return if stops(ticks - 1) then Err(Cancelled) else Ok(());
    }

    /** The body is acknowledged, or not, or without the caller learning of it. */
    method SendBatch(body: Bytes) returns (r: Result<(), DeliveryError>)
      modifies this
      ensures ticks == old(ticks) + 1
      ensures r.Ok? <==> !stops(old(ticks))
      ensures bodies == old(bodies) + [body] || (r.Err? && bodies == old(bodies))
    {
      ticks := ticks + 1;
      if !stops(ticks - 1) || unreported(ticks - 1) {
        bodies := bodies + [body];
      }
      return if stops(ticks - 1) then Err(RequestFailed) else Ok(());
    }

    /** One request between two cancellation checks. */
    method Flush(body: Bytes) returns (r: Result<(), DeliveryError>)
      modifies this
      ensures ticks >= old(ticks)
      ensures r.Ok? <==> Undisturbed(old(ticks))
      ensures bodies == old(bodies) + [body] || (r.Err? && bodies == old(bodies))
    {
      var _ :- EnsureActive();
      var _ :- SendBatch(body);
      r := EnsureActive();
    }
  }

  lemma RequestsStep(current: Batch, rest: seq<Bytes>, limits: Limits)
    requires rest != []
    ensures Bodies(Requests(current, rest, limits)) ==
            if Overflows(current, rest[0], limits) then
              [current.body] + Bodies(Requests(Batch(rest[0], 1), rest[1..], limits))
            else Bodies(Requests(Batch(Add(current.body, rest[0]), current.events + 1), rest[1..], limits))
    ensures Counted(Requests(current, rest, limits)) ==
            if Overflows(current, rest[0], limits) then
              current.events + Counted(Requests(Batch(rest[0], 1), rest[1..], limits))
            else Counted(Requests(Batch(Add(current.body, rest[0]), current.events + 1), rest[1..], limits))
  {
    if Overflows(current, rest[0], limits) {
      var tail := Requests(Batch(rest[0], 1), rest[1..], limits);
      assert ([current] + tail)[1..] == tail;
    }
  }

  /** Sent so far, and still to be sent, add up to the whole plan. */
  ghost predicate Progress(sent: seq<Bytes>, rows: nat, current: Batch, rest: seq<Bytes>, plan: seq<Batch>, limits: Limits) {
    && sent + Bodies(Requests(current, rest, limits)) == Bodies(plan)
    && rows + Counted(Requests(current, rest, limits)) == Counted(plan)
  }

  lemma Flushes(sent: seq<Bytes>, rows: nat, current: Batch, rest: seq<Bytes>, plan: seq<Batch>, limits: Limits)
    requires rest != [] && Overflows(current, rest[0], limits) && Progress(sent, rows, current, rest, plan, limits)
    ensures Progress(sent + [current.body], rows + current.events, Batch(rest[0], 1), rest[1..], plan, limits)
    ensures sent + [current.body] <= Bodies(plan)
  {
    RequestsStep(current, rest, limits);
    ConcatIsAssociative(sent, [current.body], Bodies(Requests(Batch(rest[0], 1), rest[1..], limits)));
  }

  lemma Grows(sent: seq<Bytes>, rows: nat, current: Batch, rest: seq<Bytes>, plan: seq<Batch>, limits: Limits)
    requires rest != [] && !Overflows(current, rest[0], limits) && Progress(sent, rows, current, rest, plan, limits)
    ensures Progress(sent, rows, Batch(Add(current.body, rest[0]), current.events + 1), rest[1..], plan, limits)
  {
    RequestsStep(current, rest, limits);
  }

  lemma Finishes(sent: seq<Bytes>, rows: nat, current: Batch, plan: seq<Batch>, limits: Limits)
    requires Progress(sent, rows, current, [], plan, limits)
    ensures if current.body == [] then sent == Bodies(plan) && rows == Counted(plan)
            else sent + [current.body] == Bodies(plan) && rows + current.events == Counted(plan)
    ensures sent <= Bodies(plan)
  {
    if current.body != [] {
      assert [current][1..] == [];
      assert Counted([current]) == current.events && Bodies([current]) == [current.body];
    }
  }

  lemma PrefixAfter(before: seq<Bytes>, sent: seq<Bytes>, whole: seq<Bytes>)
    requires sent <= whole
    ensures before <= before + sent <= before + whole
  {
  }

  /** The current body and the next event: flush first if the event does not fit. */
  method TakeEvent(sink: Sink, current: Batch, event: Bytes, limits: Limits) returns (r: Result<Batch, DeliveryError>)
    modifies sink
    ensures sink.ticks >= old(sink.ticks)
    ensures r.Ok? <==> sink.Undisturbed(old(sink.ticks)) && |event| <= limits.maxBytes
    ensures sink.bodies == old(sink.bodies) ||
            (Overflows(current, event, limits) && sink.bodies == old(sink.bodies) + [current.body])
    ensures r.Ok? ==>
      if Overflows(current, event, limits) then
        r.value == Batch(event, 1) && sink.bodies == old(sink.bodies) + [current.body]
      else r.value == Batch(Add(current.body, event), current.events + 1)
  {
    var _ :- sink.EnsureActive();
    if |event| > limits.maxBytes {
      return Err(EventTooLong);
    }
    var batch, batchEvents := current.body, current.events;
    var separatorBytes := if batch != [] then 1 else 0;
    var nextBytes := |batch| + separatorBytes + |event|;
    if batchEvents == limits.maxEvents || nextBytes > limits.maxBytes {
      var _ :- sink.Flush(batch);
      batch, batchEvents := [], 0;
    }
    if batch != [] {
      batch := batch + [NEWLINE];
    }
    batch := batch + event;
    return Ok(Batch(batch, batchEvents + 1));
  }

  /** What holds of the loop when `i` events were taken. */
  ghost predicate Taken(sink: Sink, before: seq<Bytes>, sent: seq<Bytes>, rows: nat, current: Batch, events: seq<Bytes>, i: nat, limits: Limits)
    requires i <= |events|
    reads sink
  {
    && Progress(sent, rows, current, events[i..], Plan(events, limits), limits)
    && sink.bodies == before + sent
    && NoneTooLong(events[..i], limits)
  }

  lemma TakesOne(before: seq<Bytes>, sent: seq<Bytes>, rows: nat, current: Batch, events: seq<Bytes>, i: nat, limits: Limits)
    requires i < |events| && Progress(sent, rows, current, events[i..], Plan(events, limits), limits)
    ensures
      if Overflows(current, events[i], limits) then
        && Progress(sent + [current.body], rows + current.events, Batch(events[i], 1), events[i + 1..], Plan(events, limits), limits)
        && before <= before + (sent + [current.body]) <= before + Bodies(Plan(events, limits))
      else
        Progress(sent, rows, Batch(Add(current.body, events[i]), current.events + 1), events[i + 1..], Plan(events, limits), limits)
    ensures before <= before + sent <= before + Bodies(Plan(events, limits))
  {
    var plan := Plan(events, limits);
    assert events[i..][1..] == events[i + 1..];
    if Overflows(current, events[i], limits) {
      Flushes(sent, rows, current, events[i..], plan, limits);
      PrefixAfter(before, sent + [current.body], Bodies(plan));
    } else {
      Grows(sent, rows, current, events[i..], plan, limits);
    }
    assert sent <= Bodies(plan);
    PrefixAfter(before, sent, Bodies(plan));
  }

  /**
   Sends the events of a segment. Undisturbed, it succeeds exactly when no event is too long and
   the rows counted into requests are the rows of the segment; whatever happens, the sink has seen
   an initial part of the planned bodies.
   */
  method DeliverReadySegment(sink: Sink, events: seq<Bytes>, rows: nat, limits: Limits)
    returns (r: Result<(), DeliveryError>)
    modifies sink
    ensures r.Ok? <==>
      sink.Undisturbed(old(sink.ticks)) && NoneTooLong(events, limits) && Counted(Plan(events, limits)) == rows
    ensures old(sink.bodies) <= sink.bodies <= old(sink.bodies) + Bodies(Plan(events, limits))
    ensures r.Ok? ==> sink.bodies == old(sink.bodies) + Bodies(Plan(events, limits))
  {
    ghost var before, sent := sink.bodies, [];
    var current := Batch([], 0);
    var deliveredRows: nat := 0;
    assert events[0..] == events;
    for i := 0 to |events|
      invariant Taken(sink, before, sent, deliveredRows, current, events, i, limits)
      invariant sink.ticks >= old(sink.ticks) && sink.Undisturbed(old(sink.ticks))
    {
      TakesOne(before, sent, deliveredRows, current, events, i, limits);
      var taken := TakeEvent(sink, current, events[i], limits);
      if taken.Err? {
        assert |events[i]| > limits.maxBytes ==> !NoneTooLong(events, limits);
        ConcatIsAssociative(before, sent, [current.body]);
        return Err(taken.error);
      }
      ConcatIsAssociative(before, sent, [current.body]);
      assert NoneTooLong(events[..i + 1], limits);
      if Overflows(current, events[i], limits) {
        deliveredRows := deliveredRows + current.events;
        sent := sent + [current.body];
      }
      current := taken.value;
    }
    assert events[|events|..] == [] && events[..|events|] == events;
    Finishes(sent, deliveredRows, current, Plan(events, limits), limits);
    PrefixAfter(before, sent, Bodies(Plan(events, limits)));
    ConcatIsAssociative(before, sent, [current.body]);
    if current.body != [] {
      var _ :- sink.Flush(current.body);
      deliveredRows := deliveredRows + current.events;
    }
    if deliveredRows != rows {
      return Err(Accounting);
    }
    r := sink.EnsureActive();
  }
}
