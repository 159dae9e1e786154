/** What the greedy request plan promises: nothing lost, nothing too large, and no plan with fewer requests. */
module BatchingLaws {
  import opened Wrappers
  import opened Source
  import opened Batching

  /** Events as the envelope encoder makes them, and limits as the configuration allows them. */
  predicate WellFormed(events: seq<Bytes>, limits: Limits) {
    && limits.maxEvents >= 1
    && forall i :: 0 <= i < |events| ==> events[i] != [] && |events[i]| <= limits.maxBytes && NEWLINE !in events[i]
  }

  // ---- bodies and the events in them ----------------------------------------------------------

  function Join(events: seq<Bytes>): Bytes {
    if events == [] then []
    else if |events| == 1 then events[0]
    else Join(events[..|events| - 1]) + [NEWLINE] + events[|events| - 1]
  }

  /** The lines of a body: newlines separate, the last line has none. */
  function Split(body: Bytes): (lines: seq<Bytes>)
    ensures lines != []
  {
    if body == [] then [[]]
    else
      var n := |body| - 1;
      var lines := Split(body[..n]);
      if body[n] == NEWLINE then lines + [[]]
      else lines[..|lines| - 1] + [lines[|lines| - 1] + [body[n]]]
  }

  lemma {:induction false} SplitLine(body: Bytes, line: Bytes)
    requires NEWLINE !in line
    ensures
      var lines := Split(body);
      Split(body + line) == lines[..|lines| - 1] + [lines[|lines| - 1] + line]
  {
    var lines := Split(body);
    if line == [] {
      assert body + line == body;
      assert lines[|lines| - 1] + [] == lines[|lines| - 1];
    } else {
      var n := |line| - 1;
      SplitLine(body, line[..n]);
      assert (body + line)[..|body + line| - 1] == body + line[..n];
      assert lines[|lines| - 1] + line == lines[|lines| - 1] + line[..n] + [line[n]];
    }
  }

  lemma SplitOne(line: Bytes)
    requires NEWLINE !in line
    ensures Split(line) == [line]
  {
    SplitLine([], line);
    assert [] + line == line;
  }

  lemma SplitMore(body: Bytes, line: Bytes)
    requires NEWLINE !in line
    ensures Split(body + [NEWLINE] + line) == Split(body) + [line]
  {
    var more := body + [NEWLINE];
    assert more[..|more| - 1] == body;
    assert Split(more) == Split(body) + [[]];
    SplitLine(more, line);
    assert [] + line == line;
  }

  predicate OneLineEach(events: seq<Bytes>) {
    forall i :: 0 <= i < |events| ==> NEWLINE !in events[i]
  }

  lemma {:induction false} SplitJoin(events: seq<Bytes>)
    requires events != [] && OneLineEach(events)
    ensures Split(Join(events)) == events
  {
    if |events| == 1 {
      SplitOne(events[0]);
    } else {
      var prior, last := events[..|events| - 1], events[|events| - 1];
      assert OneLineEach(prior);
      SplitJoin(prior);
      var body := Join(prior);
      SplitJoinMore(prior, body, last);
      assert Join(events) == body + [NEWLINE] + last;
      assert events == prior + [last];
    }
  }

  lemma SplitJoinMore(events: seq<Bytes>, body: Bytes, event: Bytes)
    requires Split(body) == events && NEWLINE !in event
    ensures Split(body + [NEWLINE] + event) == events + [event]
  {
    SplitMore(body, event);
  }

  lemma JoinAdds(events: seq<Bytes>, event: Bytes)
    requires forall i :: 0 <= i < |events| ==> events[i] != []
    ensures Join(events + [event]) == Add(Join(events), event)
    ensures events != [] ==> Join(events) != []
  {
    assert (events + [event])[..|events|] == events;
    if |events| > 1 {
      assert events[0] != [];
    }
  }

  // ---- groups ---------------------------------------------------------------------------------

  predicate Fits(group: seq<Bytes>, limits: Limits) {
    |group| <= limits.maxEvents && |Join(group)| <= limits.maxBytes
  }

  /** The plan as groups of events: a group is closed when the next event does not fit it. */
  function Groups(group: seq<Bytes>, rest: seq<Bytes>, limits: Limits): seq<seq<Bytes>>
    decreases |rest|
  {
    if rest == [] then if group == [] then [] else [group]
    else if group == [] || Fits(group + [rest[0]], limits) then Groups(group + [rest[0]], rest[1..], limits)
    else [group] + Groups([rest[0]], rest[1..], limits)
  }

  function BatchOf(group: seq<Bytes>): Batch {
    Batch(Join(group), |group|)
  }

  function BatchesOf(groups: seq<seq<Bytes>>): seq<Batch> {
    if groups == [] then [] else [BatchOf(groups[0])] + BatchesOf(groups[1..])
  }

  lemma BatchesCons(group: seq<Bytes>, groups: seq<seq<Bytes>>)
    ensures BatchesOf([group] + groups) == [BatchOf(group)] + BatchesOf(groups)
  {
    assert ([group] + groups)[1..] == groups;
  }

  predicate AllFit(groups: seq<seq<Bytes>>, limits: Limits) {
    forall i :: 0 <= i < |groups| ==> groups[i] != [] && Fits(groups[i], limits)
  }

  /** Single-line events within the byte limit; they may be empty. */
  predicate SingleLines(events: seq<Bytes>, limits: Limits) {
    && limits.maxEvents >= 1
    && forall i :: 0 <= i < |events| ==> |events[i]| <= limits.maxBytes && NEWLINE !in events[i]
  }

  /** No body opens with an empty event. */
  predicate OpensNonEmpty(groups: seq<seq<Bytes>>) {
    forall i :: 0 <= i < |groups| ==> groups[i] != [] && groups[i][0] != []
  }

  lemma OpensNonEmptyCons(group: seq<Bytes>, groups: seq<seq<Bytes>>)
    ensures OpensNonEmpty([group] + groups) <==> group != [] && group[0] != [] && OpensNonEmpty(groups)
  {
    var all := [group] + groups;
    assert all[0] == group;
    assert forall i :: 0 <= i < |groups| ==> all[i + 1] == groups[i];
  }

  lemma SingleLinesTail(events: seq<Bytes>, limits: Limits)
    requires SingleLines(events, limits) && events != []
    ensures SingleLines(events[1..], limits) && SingleLines([events[0]], limits)
  {
  }

  /** A group under construction, opened by a non-empty event unless it is empty. */
  predicate Opened(group: seq<Bytes>, limits: Limits) {
    SingleLines(group, limits) && Fits(group, limits) && (group != [] ==> group[0] != [])
  }

  lemma {:induction false} OpenedJoins(group: seq<Bytes>)
    requires group != [] && group[0] != []
    ensures Join(group) != []
  {
    if |group| > 1 {
      OpenedJoins(group[..|group| - 1]);
    }
  }

  lemma OpenedAdds(group: seq<Bytes>, event: Bytes, limits: Limits)
    requires Opened(group, limits) && SingleLines([event], limits) && (group == [] ==> event != [])
    ensures Join(group + [event]) == Add(Join(group), event)
    ensures Fits(group + [event], limits) ==> Opened(group + [event], limits)
    ensures Overflows(BatchOf(group), event, limits) <==> !Fits(group + [event], limits)
    ensures group == [] ==> Fits(group + [event], limits)
  {
    var more := group + [event];
    assert more[..|group|] == group;
    assert [event][0] == event;
    if group != [] {
      OpenedJoins(group);
    }
  }

  /** Where every body opens with an event that is not empty, the requests are the groups, joined. */
  lemma {:induction false} RequestsAreGroups(group: seq<Bytes>, rest: seq<Bytes>, limits: Limits)
    requires Opened(group, limits) && SingleLines(rest, limits)
    requires OpensNonEmpty(Groups(group, rest, limits))
    ensures Requests(BatchOf(group), rest, limits) == BatchesOf(Groups(group, rest, limits))
    decreases |rest|
  {
    if rest == [] {
      if group != [] {
        OpenedJoins(group);
        assert [group][1..] == [];
      }
    } else {
      var event := rest[0];
      SingleLinesTail(rest, limits);
      OpeningIsNonEmpty(group, rest, limits);
      OpenedAdds(group, event, limits);
      if Fits(group + [event], limits) {
        RequestsAreGroups(group + [event], rest[1..], limits);
      } else {
        OpensNonEmptyCons(group, Groups([event], rest[1..], limits));
        OpeningIsNonEmptyNext(event, rest[1..], limits);
        assert BatchOf([event]) == Batch(event, 1);
        RequestsAreGroups([event], rest[1..], limits);
        BatchesCons(group, Groups([event], rest[1..], limits));
      }
    }
  }

  /** The first group begins with the group under construction. */
  lemma {:induction false} FirstGroupBegins(group: seq<Bytes>, rest: seq<Bytes>, limits: Limits)
    requires group != []
    ensures Groups(group, rest, limits) != [] && group <= Groups(group, rest, limits)[0]
    decreases |rest|
  {
    if rest != [] && Fits(group + [rest[0]], limits) {
      FirstGroupBegins(group + [rest[0]], rest[1..], limits);
    }
  }

  lemma OpeningIsNonEmptyNext(event: Bytes, rest: seq<Bytes>, limits: Limits)
    requires OpensNonEmpty(Groups([event], rest, limits))
    ensures event != []
  {
    FirstGroupBegins([event], rest, limits);
    assert Groups([event], rest, limits)[0][0] == [event][0];
  }

  lemma OpeningIsNonEmpty(group: seq<Bytes>, rest: seq<Bytes>, limits: Limits)
    requires rest != [] && OpensNonEmpty(Groups(group, rest, limits))
    ensures group == [] ==> rest[0] != []
  {
    if group == [] {
      assert [] + [rest[0]] == [rest[0]];
      OpeningIsNonEmptyNext(rest[0], rest[1..], limits);
    }
  }

  /** The groups partition the events in order, and each is within both limits. */
  lemma {:induction false} GroupsPartition(group: seq<Bytes>, rest: seq<Bytes>, limits: Limits)
    requires SingleLines(rest, limits) && (group != [] ==> Fits(group, limits))
    ensures Flatten(Groups(group, rest, limits)) == group + rest
    ensures AllFit(Groups(group, rest, limits), limits)
    decreases |rest|
  {
    if rest == [] {
      FlattenCons(group, []);
      assert [group] + [] == [group];
    } else {
      var event := rest[0];
      SingleLinesTail(rest, limits);
      assert group + rest == group + [event] + rest[1..];
      assert [event][0] == event && Fits([event], limits);
      if group == [] || Fits(group + [event], limits) {
        assert group == [] ==> group + [event] == [event];
        GroupsPartition(group + [event], rest[1..], limits);
      } else {
        GroupsPartition([event], rest[1..], limits);
        FlattenCons(group, Groups([event], rest[1..], limits));
        assert [event] + rest[1..] == rest;
      }
    }
  }

  /** The events a receiver reads from a body: an empty body holds none. */
  function Lines(body: Bytes): seq<Bytes> {
    if body == [] then [] else Split(body)
  }

  function SplitAll(bodies: seq<Bytes>): seq<Bytes> {
    if bodies == [] then [] else Lines(bodies[0]) + SplitAll(bodies[1..])
  }

  lemma {:induction false} SplittingGivesGroups(groups: seq<seq<Bytes>>)
    requires OpensNonEmpty(groups) && forall i :: 0 <= i < |groups| ==> OneLineEach(groups[i])
    ensures SplitAll(Bodies(BatchesOf(groups))) == Flatten(groups)
    ensures Counted(BatchesOf(groups)) == |Flatten(groups)|
  {
    if groups != [] {
      SplitJoin(groups[0]);
      OpenedJoins(groups[0]);
      SplittingGivesGroups(groups[1..]);
      assert BatchesOf(groups)[1..] == BatchesOf(groups[1..]);
      assert Bodies(BatchesOf(groups))[1..] == Bodies(BatchesOf(groups[1..]));
    }
  }

  lemma {:induction false} FlattenMembers<T>(groups: seq<seq<T>>, i: nat, j: nat)
    requires i < |groups| && j < |groups[i]|
    ensures groups[i][j] in Flatten(groups)
  {
    if i > 0 {
      FlattenMembers(groups[1..], i - 1, j);
    }
  }

  predicate WithinLimits(batches: seq<Batch>, limits: Limits) {
    forall i :: 0 <= i < |batches| ==>
      && batches[i].body != [] && |batches[i].body| <= limits.maxBytes
      && 1 <= batches[i].events <= limits.maxEvents
  }

  lemma {:induction false} FittingGroupsAreWithinLimits(groups: seq<seq<Bytes>>, limits: Limits)
    requires AllFit(groups, limits)
    requires forall i, j :: 0 <= i < |groups| && 0 <= j < |groups[i]| ==> groups[i][j] != []
    ensures WithinLimits(BatchesOf(groups), limits) && |BatchesOf(groups)| == |groups|
  {
    if groups != [] {
      FittingGroupsAreWithinLimits(groups[1..], limits);
      JoinAdds(groups[0], []);
    }
  }

  lemma GroupMembers(events: seq<Bytes>, limits: Limits)
    requires SingleLines(events, limits)
    ensures Flatten(Groups([], events, limits)) == events && AllFit(Groups([], events, limits), limits)
    ensures
      var groups := Groups([], events, limits);
      forall i, j :: 0 <= i < |groups| && 0 <= j < |groups[i]| ==> groups[i][j] in events
  {
    GroupsPartition([], events, limits);
    assert [] + events == events;
    var groups := Groups([], events, limits);
    forall i, j | 0 <= i < |groups| && 0 <= j < |groups[i]|
      ensures groups[i][j] in events
    {
      FlattenMembers(groups, i, j);
    }
  }

  lemma PlanIsGroups(events: seq<Bytes>, limits: Limits)
    requires SingleLines(events, limits) && OpensNonEmpty(Groups([], events, limits))
    ensures Plan(events, limits) == BatchesOf(Groups([], events, limits))
    ensures SplitAll(Bodies(Plan(events, limits))) == events
    ensures Counted(Plan(events, limits)) == |events|
  {
    GroupMembers(events, limits);
    RequestsAreGroups([], events, limits);
    SplittingGivesGroups(Groups([], events, limits));
  }

  lemma WellFormedOpens(events: seq<Bytes>, limits: Limits)
    requires WellFormed(events, limits)
    ensures SingleLines(events, limits) && OpensNonEmpty(Groups([], events, limits))
  {
    GroupMembers(events, limits);
  }

  /**
   Conservation: the bodies, split at newlines, give the events back in order; every body is
   non-empty and within both limits; and the rows counted are the rows there are.
   */
  lemma BatchingConserves(events: seq<Bytes>, limits: Limits)
    requires WellFormed(events, limits)
    ensures SplitAll(Bodies(Plan(events, limits))) == events
    ensures Counted(Plan(events, limits)) == |events|
    ensures WithinLimits(Plan(events, limits), limits)
  {
    WellFormedOpens(events, limits);
    GroupMembers(events, limits);
    PlanIsGroups(events, limits);
    FittingGroupsAreWithinLimits(Groups([], events, limits), limits);
  }

  // ---- optimality -----------------------------------------------------------------------------

  lemma {:induction false} JoinSize(a: seq<Bytes>, b: seq<Bytes>)
    ensures a != [] && b != [] ==> |Join(a + b)| == |Join(a)| + 1 + |Join(b)|
    ensures |Join(b)| <= |Join(a + b)| && |Join(a)| <= |Join(a + b)|
    decreases |b|
  {
    if b == [] {
      assert a + b == a;
    } else if a == [] {
      assert a + b == b;
    } else {
      var n := |b| - 1;
      JoinSize(a, b[..n]);
      assert (a + b)[..|a + b| - 1] == a + b[..n];
      assert n == 0 ==> b[..n] == [] && a + b[..n] == a;
    }
  }

  lemma SplitsAt<T>(s: seq<T>, i: nat)
    requires i <= |s|
    ensures s == s[..i] + s[i..]
  {
  }

  /** Part of a fitting group fits. */
  lemma PartFits(whole: seq<Bytes>, from: nat, to: nat, limits: Limits)
    requires from <= to <= |whole| && Fits(whole, limits)
    ensures Fits(whole[from..to], limits)
  {
    SplitsAt(whole, to);
    JoinSize(whole[..to], whole[to..]);
    SplitsAt(whole[..to], from);
    JoinSize(whole[..to][..from], whole[..to][from..]);
    assert whole[..to][from..] == whole[from..to];
  }

  lemma ShiftOne<T>(group: seq<T>, rest: seq<T>, n: nat)
    requires rest != [] && n < |rest|
    ensures group + [rest[0]] + rest[1..][..n] == group + rest[..n + 1]
    ensures rest[1..][n..] == rest[n + 1..]
  {
    assert rest[..n + 1] == [rest[0]] + rest[1..][..n];
  }

  /** `m` events of `rest` join the group, and the next one would not fit. */
  predicate FirstGroup(group: seq<Bytes>, rest: seq<Bytes>, m: nat, limits: Limits) {
    && m <= |rest|
    && Groups(group, rest, limits) == [group + rest[..m]] + Groups([], rest[m..], limits)
    && (m < |rest| ==> !Fits(group + rest[..m + 1], limits))
  }

  lemma FirstGroupMore(group: seq<Bytes>, rest: seq<Bytes>, n: nat, limits: Limits)
    requires rest != [] && (group == [] || Fits(group + [rest[0]], limits))
    requires FirstGroup(group + [rest[0]], rest[1..], n, limits)
    ensures FirstGroup(group, rest, n + 1, limits)
  {
    ShiftOne(group, rest, n);
    if n + 1 < |rest| {
      ShiftOne(group, rest, n + 1);
    }
  }

  lemma FirstGroupCloses(group: seq<Bytes>, rest: seq<Bytes>, limits: Limits)
    requires group != [] && (rest == [] || !Fits(group + [rest[0]], limits))
    ensures FirstGroup(group, rest, 0, limits)
  {
    assert group + rest[..0] == group && rest[0..] == rest;
    if rest != [] {
      assert rest[..1] == [rest[0]];
      assert [] + [rest[0]] == [rest[0]];
    }
  }

  /** The first group takes as many events as fit. */
  lemma {:induction false} FirstGroupIsMaximal(group: seq<Bytes>, rest: seq<Bytes>, limits: Limits) returns (m: nat)
    requires group != [] && Fits(group, limits)
    ensures FirstGroup(group, rest, m, limits)
    decreases |rest|
  {
    if rest != [] && Fits(group + [rest[0]], limits) {
      var n := FirstGroupIsMaximal(group + [rest[0]], rest[1..], limits);
      FirstGroupMore(group, rest, n, limits);
      m := n + 1;
    } else {
      FirstGroupCloses(group, rest, limits);
      m := 0;
    }
  }

  lemma GreedyHead(rest: seq<Bytes>, limits: Limits) returns (m: nat)
    requires WellFormed(rest, limits) && rest != []
    ensures 1 <= m && FirstGroup([], rest, m, limits)
  {
    assert [] + [rest[0]] == [rest[0]];
    var n := FirstGroupIsMaximal([rest[0]], rest[1..], limits);
    FirstGroupMore([], rest, n, limits);
    m := n + 1;
  }

  /** The greedy group reaches at least as far as a part that covers its start. */
  lemma GreedyReaches(events: seq<Bytes>, k: nat, first: seq<Bytes>, limits: Limits) returns (next: nat)
    requires WellFormed(events, limits) && k < |first| <= |events| && first == events[..|first|] && Fits(first, limits)
    ensures |first| <= next <= |events|
    ensures |Groups([], events[k..], limits)| == 1 + |Groups([], events[next..], limits)|
  {
    var rest := events[k..];
    var m := GreedyHead(rest, limits);
    next := k + m;
    assert rest[m..] == events[next..];
    if next < |first| {
      assert [] + rest[..m + 1] == rest[..m + 1];
      InsideFits(events, k, first, m + 1, limits);
    }
  }

  lemma InsideFits(events: seq<Bytes>, k: nat, first: seq<Bytes>, m: nat, limits: Limits)
    requires k + m <= |first| <= |events| && first == events[..|first|] && Fits(first, limits)
    ensures Fits(events[k..][..m], limits)
  {
    PartFits(first, k, k + m, limits);
    assert first[k..k + m] == events[k..][..m];
  }

  /** Greedy stays ahead: from any later start it needs no more groups than a fitting partition. */
  lemma {:induction false} GreedyStaysAhead(events: seq<Bytes>, k: nat, parts: seq<seq<Bytes>>, limits: Limits)
    requires WellFormed(events, limits) && k <= |events|
    requires Flatten(parts) == events
    requires forall i :: 0 <= i < |parts| ==> Fits(parts[i], limits)
    ensures |Groups([], events[k..], limits)| <= |parts|
    decreases |parts|
  {
    if k < |events| {
      var first, others := parts[0], Flatten(parts[1..]);
      assert first == events[..|first|] && others == events[|first|..];
      var next := k;
      if k < |first| {
        next := GreedyReaches(events, k, first, limits);
      }
      GreedyStaysAhead(others, next - |first|, parts[1..], limits);
      SliceFurther(events, |first|, next);
    }
  }

  lemma SliceFurther(events: seq<Bytes>, from: nat, next: nat)
    requires from <= next <= |events|
    ensures events[from..][next - from..] == events[next..]
  {
  }

  /** No way of splitting the events, in order, into bodies within the limits needs fewer requests. */
  lemma BatchingIsOptimal(events: seq<Bytes>, parts: seq<seq<Bytes>>, limits: Limits)
    requires WellFormed(events, limits)
    requires Flatten(parts) == events
    requires forall i :: 0 <= i < |parts| ==> Fits(parts[i], limits)
    ensures |Plan(events, limits)| <= |parts|
  {
    WellFormedOpens(events, limits);
    GroupMembers(events, limits);
    PlanIsGroups(events, limits);
    FittingGroupsAreWithinLimits(Groups([], events, limits), limits);
    GreedyStaysAhead(events, 0, parts, limits);
    assert events[0..] == events;
  }

  /** Each event adds at most one line, and one that finds the body empty and is empty itself adds none. */
  lemma LinesAdd(body: Bytes, event: Bytes)
    requires NEWLINE !in event
    ensures |Lines(Add(body, event))| == |Lines(body)| + if body == [] && event == [] then 0 else 1
  {
    if body == [] {
      SplitOne(event);
    } else {
      SplitMore(body, event);
    }
  }

  /** The requests hold at most the lines of the current body and one for each event to come. */
  lemma {:induction false} LinesAtMost(current: Batch, rest: seq<Bytes>, limits: Limits)
    requires SingleLines(rest, limits)
    ensures |SplitAll(Bodies(Requests(current, rest, limits)))| <= |Lines(current.body)| + |rest|
    decreases |rest|
  {
    if rest == [] {
      FinalLines(current);
    } else {
      var event := rest[0];
      SingleLinesTail(rest, limits);
      RequestsStep(current, rest, limits);
      if Overflows(current, event, limits) {
        LinesAtMost(Batch(event, 1), rest[1..], limits);
        LinesAdd([], event);
        assert Add([], event) == event;
        SplitAllCons(current.body, Bodies(Requests(Batch(event, 1), rest[1..], limits)));
      } else {
        LinesAtMost(Batch(Add(current.body, event), current.events + 1), rest[1..], limits);
        LinesAdd(current.body, event);
      }
    }
  }

  lemma SplitAllCons(body: Bytes, bodies: seq<Bytes>)
    ensures SplitAll([body] + bodies) == Lines(body) + SplitAll(bodies)
  {
    assert ([body] + bodies)[1..] == bodies;
  }

  lemma FinalLines(current: Batch)
    ensures SplitAll(Bodies(if current.body == [] then [] else [current])) == Lines(current.body)
  {
    if current.body != [] {
      assert Bodies([current]) == [current.body] + [];
      SplitAllCons(current.body, []);
    }
  }

  /** A group that opens with an empty event costs a line. */
  lemma {:induction false} EmptyOpeningLosesALine(group: seq<Bytes>, rest: seq<Bytes>, limits: Limits)
    requires Opened(group, limits) && SingleLines(rest, limits)
    requires !OpensNonEmpty(Groups(group, rest, limits))
    ensures |SplitAll(Bodies(Requests(BatchOf(group), rest, limits)))| < |Lines(Join(group))| + |rest|
    decreases |rest|
  {
    if rest != [] {
      var event := rest[0];
      SingleLinesTail(rest, limits);
      RequestsStep(BatchOf(group), rest, limits);
      if group == [] && event == [] {
        LinesAtMost(Batch([], 1), rest[1..], limits);
      } else {
        OpenedAdds(group, event, limits);
        if Fits(group + [event], limits) {
          EmptyOpeningLosesALine(group + [event], rest[1..], limits);
          LinesAdd(Join(group), event);
        } else {
          ClosedGroupLosesALine(group, rest, limits);
        }
      }
    }
  }

  lemma ClosedGroupLosesALine(group: seq<Bytes>, rest: seq<Bytes>, limits: Limits)
    requires group != [] && rest != [] && Opened(group, limits) && SingleLines(rest, limits)
    requires !Fits(group + [rest[0]], limits) && Overflows(BatchOf(group), rest[0], limits)
    requires !OpensNonEmpty(Groups(group, rest, limits))
    ensures |SplitAll(Bodies(Requests(BatchOf(group), rest, limits)))| < |Lines(Join(group))| + |rest|
    decreases |rest|, 0
  {
    var event, tail := rest[0], Requests(Batch(rest[0], 1), rest[1..], limits);
    SingleLinesTail(rest, limits);
    RequestsStep(BatchOf(group), rest, limits);
    SplitAllCons(Join(group), Bodies(tail));
    OpensNonEmptyCons(group, Groups([event], rest[1..], limits));
    if event == [] {
      LinesAtMost(Batch([], 1), rest[1..], limits);
    } else {
      assert BatchOf([event]) == Batch(event, 1);
      EmptyOpeningLosesALine([event], rest[1..], limits);
      LinesAdd([], event);
    }
  }

  /**
   The exact condition: for single-line events within the limit, empty ones included, splitting the
   bodies gives the events back if and only if no body of the greedy grouping opens with an empty one.
   */
  lemma EventsComeBackExactlyWhen(events: seq<Bytes>, limits: Limits)
    requires SingleLines(events, limits)
    ensures SplitAll(Bodies(Plan(events, limits))) == events <==> OpensNonEmpty(Groups([], events, limits))
  {
    if OpensNonEmpty(Groups([], events, limits)) {
      PlanIsGroups(events, limits);
    } else {
      EmptyOpeningLosesALine([], events, limits);
    }
  }

  /** The plainest failing case: an empty event in front, whatever follows. */
  lemma LeadingEmptyEventIsLost(events: seq<Bytes>, limits: Limits)
    requires SingleLines(events, limits) && events != [] && events[0] == []
    ensures SplitAll(Bodies(Plan(events, limits))) != events
  {
    if OpensNonEmpty(Groups([], events, limits)) {
      OpeningIsNonEmpty([], events, limits);
      assert false;
    }
    EventsComeBackExactlyWhen(events, limits);
  }
}
