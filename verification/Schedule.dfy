/** Which inputs run next: due times, a fixed capacity, and how long an input can be overtaken. */
module Schedule {
  import opened Wrappers

  type Name = string
  type Instant = nat

  // ---- the order in which due inputs are served -----------------------------------------------

  predicate Precedes(a: Name, b: Name) {
    if b == [] then false
    else if a == [] then true
    else if a[0] != b[0] then a[0] < b[0]
    else Precedes(a[1..], b[1..])
  }

  lemma {:induction false} PrecedesIsStrictTotal(a: Name, b: Name, c: Name)
    ensures !Precedes(a, a)
    ensures a == b || Precedes(a, b) || Precedes(b, a)
    ensures !(Precedes(a, b) && Precedes(b, a))
    ensures Precedes(a, b) && Precedes(b, c) ==> Precedes(a, c)
    decreases |a| + |b| + |c|
  {
    if a != [] {
      PrecedesIsStrictTotal(a[1..], [], []);
      if b != [] {
        PrecedesIsStrictTotal(a[1..], b[1..], if c == [] then [] else c[1..]);
        if a[0] == b[0] && a[1..] == b[1..] {
          assert a == [a[0]] + a[1..] && b == [b[0]] + b[1..];
        }
      }
    }
  }

  datatype Key = Key(due: Instant, name: Name)

  /** The earlier due time first, then the smaller name. */
  predicate Earlier(a: Key, b: Key) {
    a.due < b.due || (a.due == b.due && Precedes(a.name, b.name))
  }

  lemma EarlierIsStrictTotal(a: Key, b: Key, c: Key)
    ensures !Earlier(a, a)
    ensures a == b || Earlier(a, b) || Earlier(b, a)
    ensures !(Earlier(a, b) && Earlier(b, a))
    ensures Earlier(a, b) && Earlier(b, c) ==> Earlier(a, c)
  {
    PrecedesIsStrictTotal(a.name, b.name, c.name);
  }

  // ---- the state and what its operations do ---------------------------------------------------

  datatype State = State(nextDue: map<Name, Instant>, running: set<Name>)

  function KeyOf(s: State, name: Name): Key
    requires name in s.nextDue
  {
    Key(s.nextDue[name], name)
  }

  function Eligible(s: State, now: Instant): set<Name> {
    set name | name in s.nextDue && name !in s.running && s.nextDue[name] <= now
  }

  function Free(s: State, capacity: nat): nat {
    if |s.running| >= capacity then 0 else capacity - |s.running|
  }

  function Min(a: nat, b: nat): nat {
    if a <= b then a else b
  }

  /** The earliest due inputs that are not running, as many as there is room for. */
  ghost predicate Takes(s: State, now: Instant, capacity: nat, taken: set<Name>) {
    && taken <= Eligible(s, now)
    && |taken| == Min(Free(s, capacity), |Eligible(s, now)|)
    && forall a, b :: a in taken && b in Eligible(s, now) - taken ==> Earlier(KeyOf(s, a), KeyOf(s, b))
  }

  function Synced(s: State, enabled: set<Name>, now: Instant): State {
    s.(nextDue := map name | name in enabled :: if name in s.nextDue then s.nextDue[name] else now)
  }

  function Completed(s: State, name: Name, now: Instant, interval: Option<nat>): State {
    State(
      if interval.Some? then s.nextDue[name := now + interval.value] else s.nextDue - {name},
      s.running - {name})
  }

  // ---- the scheduler --------------------------------------------------------------------------

  predicate SortedByKey(s: State, names: seq<Name>) {
    && (forall i :: 0 <= i < |names| ==> names[i] in s.nextDue)
    && (forall i, j :: 0 <= i < j < |names| ==> Earlier(KeyOf(s, names[i]), KeyOf(s, names[j])))
  }

  function Elements(names: seq<Name>): set<Name> {
    set name | name in names
  }

  predicate Distinct(names: seq<Name>) {
    forall i, j :: 0 <= i < j < |names| ==> names[i] != names[j]
  }

  lemma {:induction false} DistinctSize(names: seq<Name>)
    requires Distinct(names)
    ensures |Elements(names)| == |names|
  {
    if names != [] {
      var n := |names| - 1;
      DistinctSize(names[..n]);
      assert names == names[..n] + [names[n]];
      assert Elements(names) == Elements(names[..n]) + {names[n]};
    }
  }

  lemma SortedIsDistinct(s: State, names: seq<Name>)
    requires SortedByKey(s, names)
    ensures Distinct(names) && |Elements(names)| == |names|
  {
    forall i, j | 0 <= i < j < |names|
      ensures names[i] != names[j]
    {
      EarlierIsStrictTotal(KeyOf(s, names[i]), KeyOf(s, names[j]), KeyOf(s, names[j]));
    }
    DistinctSize(names);
  }

  lemma InsertKeepsElements(names: seq<Name>, k: nat, name: Name)
    requires k <= |names|
    ensures Elements(names[..k] + [name] + names[k..]) == Elements(names) + {name}
  {
    assert names == names[..k] + names[k..];
  }

  lemma InsertKeepsSorted(s: State, names: seq<Name>, k: nat, name: Name)
    requires SortedByKey(s, names) && k <= |names| && name in s.nextDue
    requires forall i :: 0 <= i < k ==> Earlier(KeyOf(s, names[i]), KeyOf(s, name))
    requires forall i :: k <= i < |names| ==> Earlier(KeyOf(s, name), KeyOf(s, names[i]))
    ensures SortedByKey(s, names[..k] + [name] + names[k..])
  {
    var more := names[..k] + [name] + names[k..];
    forall i, j | 0 <= i < j < |more|
      ensures more[i] in s.nextDue && more[j] in s.nextDue && Earlier(KeyOf(s, more[i]), KeyOf(s, more[j]))
    {
      var a, b := if i <= k then i else i - 1, if j <= k then j else j - 1;
      assert more[i] == if i == k then name else names[a];
      assert more[j] == if j == k then name else names[b];
    }
    if |more| == 1 {
      assert more[0] == name;
    }
    assert forall i :: 0 <= i < |more| ==> more[i] == name || more[i] in names;
  }

  /** Puts one name where its key belongs. */
  method Insert(s: State, names: seq<Name>, name: Name) returns (more: seq<Name>)
    requires SortedByKey(s, names) && name in s.nextDue && name !in names
    ensures SortedByKey(s, more) && Elements(more) == Elements(names) + {name}
  {
    var k := 0;
    while k < |names| && Earlier(KeyOf(s, names[k]), KeyOf(s, name))
      invariant 0 <= k <= |names|
      invariant forall i :: 0 <= i < k ==> Earlier(KeyOf(s, names[i]), KeyOf(s, name))
    {
      k := k + 1;
    }
    forall i | k <= i < |names|
      ensures Earlier(KeyOf(s, name), KeyOf(s, names[i]))
    {
      EarlierIsStrictTotal(KeyOf(s, names[k]), KeyOf(s, name), KeyOf(s, name));
      EarlierIsStrictTotal(KeyOf(s, name), KeyOf(s, names[k]), KeyOf(s, names[i]));
    }
    InsertKeepsSorted(s, names, k, name);
    InsertKeepsElements(names, k, name);
    more := names[..k] + [name] + names[k..];
  }

  /** The eligible inputs in serving order. */
  method SortEligible(s: State, now: Instant) returns (due: seq<Name>)
    ensures SortedByKey(s, due) && Elements(due) == Eligible(s, now)
  {
    var rest := Eligible(s, now);
    due := [];
    while rest != {}
      invariant rest <= Eligible(s, now)
      invariant SortedByKey(s, due) && Elements(due) == Eligible(s, now) - rest
      decreases |rest|
    {
      var name :| name in rest;
      assert name !in Elements(due);
      due := Insert(s, due, name);
      rest := rest - {name};
    }
  }

  lemma PrefixTakes(s: State, now: Instant, capacity: nat, due: seq<Name>)
    requires SortedByKey(s, due) && Elements(due) == Eligible(s, now)
    ensures
      var n := Min(Free(s, capacity), |due|);
      && SortedByKey(s, due[..n])
      && Takes(s, now, capacity, Elements(due[..n]))
  {
    var n := Min(Free(s, capacity), |due|);
    var first := due[..n];
    SortedIsDistinct(s, due);
    SortedIsDistinct(s, first);
    forall j | 0 <= j < n
      ensures due[j] in Elements(first)
    {
      assert first[j] == due[j];
    }
    forall a, b | a in Elements(first) && b in Eligible(s, now) - Elements(first)
      ensures Earlier(KeyOf(s, a), KeyOf(s, b))
    {
      var i :| 0 <= i < n && first[i] == a;
      assert b in Elements(due);
      var j :| 0 <= j < |due| && due[j] == b;
    }
    assert Elements(first) <= Elements(due);
  }

  class ScheduleState {
    var nextDue: map<Name, Instant>
    var running: set<Name>

    function Value(): State
      reads this
    {
      State(nextDue, running)
    }

    constructor (inputs: set<Name>, now: Instant)
      ensures Value() == Synced(State(map[], {}), inputs, now)
    {
      nextDue, running := map[], {};
      new;
      Sync(inputs, now);
    }

    /** Forgets inputs that are not enabled; a new one is due at once. */
    method Sync(enabled: set<Name>, now: Instant)
      modifies this
      ensures Value() == Synced(old(Value()), enabled, now)
      ensures nextDue.Keys == enabled && running == old(running)
      ensures forall name :: name in enabled ==>
                nextDue[name] == if name in old(nextDue) then old(nextDue)[name] else now
    {
      nextDue := map name | name in nextDue && name in enabled :: nextDue[name];
      var rest := enabled;
      ghost var kept := nextDue;
      while rest != {}
        invariant rest <= enabled && running == old(running)
        invariant nextDue.Keys == kept.Keys + (enabled - rest)
        invariant forall name :: name in nextDue ==> nextDue[name] == if name in kept then kept[name] else now
        decreases |rest|
      {
        var name :| name in rest;
        if name !in nextDue {
          nextDue := nextDue[name := now];
        }
        rest := rest - {name};
      }
      assert kept.Keys <= enabled;
      assert nextDue == Synced(old(Value()), enabled, now).nextDue;
    }

    /** Starts the earliest due inputs in order, within the capacity, and none that is running. */
    method TakeDue(now: Instant, capacity: nat) returns (due: seq<Name>)
      modifies this
      ensures SortedByKey(old(Value()), due) && Takes(old(Value()), now, capacity, Elements(due))
      ensures Value() == old(Value()).(running := old(running) + Elements(due))
      ensures |due| == |Elements(due)| && old(running) !! Elements(due)
      ensures |old(running)| <= capacity ==> |running| <= capacity
    {
      var available := Free(Value(), capacity);
      var all := SortEligible(Value(), now);
      PrefixTakes(Value(), now, capacity, all);
      due := all[..Min(available, |all|)];
      SortedIsDistinct(Value(), due);
      running := running + Elements(due);
      assert |running| == |old(running)| + |Elements(due)|;
    }

    method Complete(name: Name, now: Instant, interval: Option<nat>)
      modifies this
      ensures Value() == Completed(old(Value()), name, now, interval)
      ensures running == old(running) - {name}
      ensures nextDue.Keys - {name} == old(nextDue).Keys - {name}
      ensures forall other :: other in nextDue && other != name ==> nextDue[other] == old(nextDue)[other]
      ensures if interval.Some? then name in nextDue && nextDue[name] == now + interval.value else name !in nextDue
    {
      assert nextDue.Keys - {name} == (nextDue - {name}).Keys;
      running := running - {name};
      if interval.Some? {
        nextDue := nextDue[name := now + interval.value];
      } else {
        nextDue := nextDue - {name};
      }
    }

    method ReleaseAll()
      modifies this
      ensures Value() == old(Value()).(running := {})
    {
      running := {};
    }
  }

  // ---- runs -----------------------------------------------------------------------------------

  /** What the daemon does to the schedule; a release is what stopping the workers for a reload leaves. */
  datatype Op =
    | Wave(now: Instant, capacity: nat, taken: set<Name>)
    | Complete(name: Name, now: Instant, interval: Option<nat>)
    | Sync(enabled: set<Name>, now: Instant)
    | Release

  function After(s: State, op: Op): State {
    match op
    case Wave(_, _, taken) => s.(running := s.running + taken)
    case Complete(name, now, interval) => Completed(s, name, now, interval)
    case Sync(enabled, now) => Synced(s, enabled, now)
    case Release => s.(running := {})
  }

  /** A collection wave starts only when no worker is left of the last one. */
  predicate WaveMayStart(activeWorkers: nat, backlogDrained: Option<bool>) {
    activeWorkers == 0 && backlogDrained == Some(true)
  }

  /** An operation that leaves `x` waiting: it is not started, not rescheduled and not disabled. */
  ghost predicate Passes(s: State, op: Op, x: Name, capacity: nat) {
    match op
    case Wave(now, c, taken) =>
      c == capacity && WaveMayStart(|s.running|, Some(true)) && Takes(s, now, capacity, taken) && x !in taken
    case Complete(name, _, _) => name != x
    case Sync(enabled, _) => x in enabled
    case Release => true
  }

  /** `x` is scheduled and waits through all of the operations. */
  ghost predicate Waits(s: State, ops: seq<Op>, x: Name, capacity: nat)
    decreases |ops|
  {
    && x in s.nextDue && x !in s.running
    && (ops != [] ==> Passes(s, ops[0], x, capacity) && Waits(After(s, ops[0]), ops[1..], x, capacity))
  }

  function RunOf(s: State, ops: seq<Op>): State
    decreases |ops|
  {
    if ops == [] then s else RunOf(After(s, ops[0]), ops[1..])
  }

  /** The waves that could have started an input due at `due`. */
  function DueWaves(ops: seq<Op>, due: Instant): nat {
    if ops == [] then 0 else (if ops[0].Wave? && due <= ops[0].now then 1 else 0) + DueWaves(ops[1..], due)
  }

  function Releases(ops: seq<Op>): nat {
    if ops == [] then 0 else (if ops[0].Release? then 1 else 0) + Releases(ops[1..])
  }

  // ---- who is ahead, and who comes back -------------------------------------------------------

  /** Inputs that would be served before `x` and are not running. */
  function Ahead(s: State, x: Name): set<Name>
    requires x in s.nextDue
  {
    set name | name in s.nextDue && name !in s.running && Earlier(KeyOf(s, name), KeyOf(s, x))
  }

  /**
   The inputs an operation puts ahead of `x`: one that completes under a key before that of `x`, those
   that a sync adds under such a key, and those that a release takes out of the running ones.
   */
  function Returning(s: State, op: Op, x: Name): set<Name>
    requires x in s.nextDue
  {
    match op
    case Wave(_, _, _) => {}
    case Complete(name, now, interval) =>
      if interval.Some? && name !in Ahead(s, x) && Earlier(Key(now + interval.value, name), KeyOf(s, x)) then {name} else {}
    case Sync(enabled, now) =>
      set name | name in enabled && name !in s.nextDue && name !in s.running && Earlier(Key(now, name), KeyOf(s, x))
    case Release =>
      set name | name in s.running && name in s.nextDue && Earlier(KeyOf(s, name), KeyOf(s, x))
  }

  function Returns(s: State, ops: seq<Op>, x: Name): nat
    decreases |ops|
  {
    if ops == [] || x !in s.nextDue then 0
    else |Returning(s, ops[0], x)| + Returns(After(s, ops[0]), ops[1..], x)
  }

  /** Exactly the returning inputs are new among those ahead. */
  lemma ReturningIsExact(s: State, op: Op, x: Name, capacity: nat)
    requires x in s.nextDue && x !in s.running && Passes(s, op, x, capacity)
    ensures x in After(s, op).nextDue && After(s, op).nextDue[x] == s.nextDue[x] && x !in After(s, op).running
    ensures forall name ::
              name in Ahead(After(s, op), x) && name !in Ahead(s, x) <==> name in Returning(s, op, x)
  {
    var after := After(s, op);
    assert KeyOf(after, x) == KeyOf(s, x);
    EarlierIsStrictTotal(KeyOf(s, x), KeyOf(s, x), KeyOf(s, x));
  }

  lemma CardinalityAtMost<T>(a: set<T>, b: set<T>)
    requires a <= b
    ensures |a| <= |b|
  {
    assert b == a + (b - a);
  }

  /** A wave at an instant when `x` is due passes it over only for a full capacity of inputs ahead. */
  lemma FullWave(s: State, now: Instant, capacity: nat, taken: set<Name>, x: Name)
    requires x in s.nextDue && s.running == {} && s.nextDue[x] <= now
    requires Takes(s, now, capacity, taken) && x !in taken
    ensures |taken| == capacity && taken <= Ahead(s, x)
  {
    assert x in Eligible(s, now) - taken;
    CardinalityAtMost(taken + {x}, Eligible(s, now));
  }

  predicate IsDueWave(s: State, op: Op, x: Name)
    requires x in s.nextDue
  {
    op.Wave? && s.nextDue[x] <= op.now
  }

  /** One operation: those ahead grow by the returning ones, and a due wave works off a full capacity. */
  lemma OvertakingStep(s: State, op: Op, x: Name, capacity: nat)
    requires x in s.nextDue && x !in s.running && Passes(s, op, x, capacity)
    ensures x in After(s, op).nextDue && After(s, op).nextDue[x] == s.nextDue[x] && x !in After(s, op).running
    ensures |Ahead(After(s, op), x)| + (if IsDueWave(s, op, x) then capacity else 0)
         <= |Ahead(s, x)| + |Returning(s, op, x)|
  {
    var after := After(s, op);
    ReturningIsExact(s, op, x, capacity);
    if IsDueWave(s, op, x) {
      FullWave(s, op.now, capacity, op.taken, x);
      assert Ahead(after, x) == Ahead(s, x) - op.taken;
    } else {
      CardinalityAtMost(Ahead(after, x), Ahead(s, x) + Returning(s, op, x));
      SizeOfUnion(Ahead(s, x), Returning(s, op, x));
    }
  }

  lemma SizeOfUnion<T>(a: set<T>, b: set<T>)
    ensures |a + b| <= |a| + |b|
  {
    assert a + b == a + (b - a);
    CardinalityAtMost(b - a, b);
  }

  lemma Distributes(c: nat, a: nat, b: nat)
    ensures c * (a + b) == c * a + c * b
  {
  }

  /**
   The accounting of every run, whatever happens in it: each wave that passes over a due input is
   paid for by a full capacity of inputs that were ahead at the start or came back ahead since.
   */
  lemma {:induction false} OvertakingIsAccounted(s: State, ops: seq<Op>, x: Name, capacity: nat)
    requires Waits(s, ops, x, capacity)
    ensures capacity * DueWaves(ops, s.nextDue[x]) <= |Ahead(s, x)| + Returns(s, ops, x)
    decreases |ops|
  {
    if ops != [] {
      OvertakingStep(s, ops[0], x, capacity);
      OvertakingIsAccounted(After(s, ops[0]), ops[1..], x, capacity);
      Distributes(capacity, if IsDueWave(s, ops[0], x) then 1 else 0, DueWaves(ops[1..], s.nextDue[x]));
    }
  }

  // ---- the bound ------------------------------------------------------------------------------

  /** What a clock gives: completions and syncs come at instants after `due`. */
  predicate Clocked(ops: seq<Op>, due: Instant) {
    forall i :: 0 <= i < |ops| ==> (ops[i].Complete? || ops[i].Sync? ==> due < ops[i].now)
  }

  /** After the due instant only a release brings anyone back, and no more than were running. */
  lemma ClockedReturns(s: State, op: Op, x: Name)
    requires x in s.nextDue && Clocked([op], s.nextDue[x])
    ensures !op.Release? ==> Returning(s, op, x) == {}
    ensures |Returning(s, op, x)| <= |s.running|
  {
    assert op == [op][0];
    if op.Release? {
      CardinalityAtMost(Returning(s, op, x), s.running);
    }
  }

  /** Never more than the capacity runs. */
  lemma RunningStaysWithin(s: State, op: Op, x: Name, capacity: nat)
    requires |s.running| <= capacity && Passes(s, op, x, capacity)
    ensures |After(s, op).running| <= capacity
  {
    CardinalityAtMost(s.running - (if op.Complete? then {op.name} else {}), s.running);
    if op.Wave? {
      SizeOfUnion(s.running, op.taken);
    }
  }

  lemma {:induction false} ReleasesPayForReturns(s: State, ops: seq<Op>, x: Name, capacity: nat)
    requires Waits(s, ops, x, capacity) && Clocked(ops, s.nextDue[x]) && |s.running| <= capacity
    ensures Returns(s, ops, x) <= capacity * Releases(ops)
    decreases |ops|
  {
    if ops != [] {
      assert forall i :: 0 <= i < |ops[1..]| ==> ops[1..][i] == ops[i + 1];
      OvertakingStep(s, ops[0], x, capacity);
      ClockedReturns(s, ops[0], x);
      RunningStaysWithin(s, ops[0], x, capacity);
      ReleasesPayForReturns(After(s, ops[0]), ops[1..], x, capacity);
      Distributes(capacity, if ops[0].Release? then 1 else 0, Releases(ops[1..]));
    }
  }

  function CeilDiv(n: nat, d: nat): nat
    requires d > 0
  {
    (n + d - 1) / d
  }

  lemma CeilCovers(n: nat, d: nat)
    requires d > 0
    ensures d * CeilDiv(n, d) >= n
  {
  }

  lemma ProductsGrow(c: nat, a: nat, b: nat)
    requires a >= b
    ensures c * a >= c * b
  {
  }

  lemma FewerWaves(n: nat, capacity: nat, waves: nat, releases: nat, ahead: nat)
    requires capacity >= 1 && ahead < n && capacity * waves <= ahead + capacity * releases
    ensures waves < CeilDiv(n, capacity) + releases
  {
    var bound := CeilDiv(n, capacity);
    CeilCovers(n, capacity);
    if waves >= bound + releases {
      ProductsGrow(capacity, waves, bound + releases);
      Distributes(capacity, bound, releases);
    }
  }

  /**
   Bounded overtaking: among `n` scheduled inputs, one that is due is started within
   ceil(n / capacity) waves, immediate continuations included, plus one wave for each release in
   between. Put as its contrapositive: a run in which it keeps waiting has fewer.
   */
  lemma StartsWithinBound(s: State, ops: seq<Op>, x: Name, capacity: nat)
    requires capacity >= 1 && |s.running| <= capacity
    requires Waits(s, ops, x, capacity) && Clocked(ops, s.nextDue[x])
    ensures DueWaves(ops, s.nextDue[x]) < CeilDiv(|s.nextDue|, capacity) + Releases(ops)
  {
    OvertakingIsAccounted(s, ops, x, capacity);
    ReleasesPayForReturns(s, ops, x, capacity);
    EarlierIsStrictTotal(KeyOf(s, x), KeyOf(s, x), KeyOf(s, x));
    CardinalityAtMost(Ahead(s, x) + {x}, s.nextDue.Keys);
    assert |s.nextDue.Keys| == |s.nextDue|;
    FewerWaves(|s.nextDue|, capacity, DueWaves(ops, s.nextDue[x]), Releases(ops), |Ahead(s, x)|);
  }

  /** The bound as it is wanted: without a release while `x` waits, ceil(n / capacity) waves suffice. */
  lemma StartsWithoutReleases(s: State, ops: seq<Op>, x: Name, capacity: nat)
    requires capacity >= 1 && |s.running| <= capacity
    requires Waits(s, ops, x, capacity) && Clocked(ops, s.nextDue[x]) && Releases(ops) == 0
    ensures DueWaves(ops, s.nextDue[x]) < CeilDiv(|s.nextDue|, capacity)
  {
    StartsWithinBound(s, ops, x, capacity);
  }

  // ---- when releases starve an input ----------------------------------------------------------

  /** Everyone with an earlier key, running or not. */
  function Before(s: State, x: Name): set<Name>
    requires x in s.nextDue
  {
    set name | name in s.nextDue && Earlier(KeyOf(s, name), KeyOf(s, x))
  }

  lemma ClockedBefore(s: State, op: Op, x: Name, capacity: nat)
    requires x in s.nextDue && x !in s.running && Passes(s, op, x, capacity) && Clocked([op], s.nextDue[x])
    ensures x in After(s, op).nextDue && Before(After(s, op), x) <= Before(s, x)
  {
    assert op == [op][0];
    assert KeyOf(After(s, op), x) == KeyOf(s, x);
  }

  /** With fewer than a capacity of inputs before it, `x` is started by the first wave after it is due. */
  lemma {:induction false} FewBeforeMeansStarted(s: State, ops: seq<Op>, x: Name, capacity: nat)
    requires Waits(s, ops, x, capacity) && Clocked(ops, s.nextDue[x]) && |Before(s, x)| < capacity
    ensures DueWaves(ops, s.nextDue[x]) == 0
    decreases |ops|
  {
    if ops != [] {
      var op := ops[0];
      assert forall i :: 0 <= i < |ops[1..]| ==> ops[1..][i] == ops[i + 1];
      ClockedBefore(s, op, x, capacity);
      CardinalityAtMost(Before(After(s, op), x), Before(s, x));
      ReturningIsExact(s, op, x, capacity);
      if IsDueWave(s, op, x) {
        FullWave(s, op.now, capacity, op.taken, x);
        CardinalityAtMost(op.taken, Before(s, x));
        assert false;
      }
      FewBeforeMeansStarted(After(s, op), ops[1..], x, capacity);
    }
  }

  /** The earliest of some scheduled inputs. */
  lemma {:induction false} EarliestExists(s: State, names: set<Name>) returns (first: Name)
    requires names != {} && names <= s.nextDue.Keys
    ensures first in names && forall other :: other in names - {first} ==> Earlier(KeyOf(s, first), KeyOf(s, other))
    decreases |names|
  {
    var some :| some in names;
    first := some;
    if names != {some} {
      var rest := EarliestExists(s, names - {some});
      EarlierIsStrictTotal(KeyOf(s, some), KeyOf(s, rest), KeyOf(s, rest));
      if Earlier(KeyOf(s, rest), KeyOf(s, some)) {
        first := rest;
      }
      forall other | other in names - {first}
        ensures Earlier(KeyOf(s, first), KeyOf(s, other))
      {
        EarlierIsStrictTotal(KeyOf(s, first), KeyOf(s, rest), KeyOf(s, other));
      }
    }
  }

  /** The first `k` of some scheduled inputs. */
  lemma {:induction false} FirstFew(s: State, names: set<Name>, k: nat) returns (few: set<Name>)
    requires names <= s.nextDue.Keys && k <= |names|
    ensures few <= names && |few| == k
    ensures forall a, b :: a in few && b in names - few ==> Earlier(KeyOf(s, a), KeyOf(s, b))
    decreases k
  {
    if k == 0 {
      few := {};
    } else {
      var first := EarliestExists(s, names);
      var rest := FirstFew(s, names - {first}, k - 1);
      few := rest + {first};
    }
  }

  /** What a wave takes past `x` at one instant it takes at every later one, if nothing else changes. */
  lemma SameWaveLater(s: State, now: Instant, later: Instant, capacity: nat, taken: set<Name>, x: Name)
    requires x in s.nextDue && s.running == {} && s.nextDue[x] <= now <= later
    requires Takes(s, now, capacity, taken) && x !in taken
    ensures Takes(s, later, capacity, taken)
  {
    FullWave(s, now, capacity, taken, x);
    CardinalityAtMost(Eligible(s, now), Eligible(s, later));
  }

  /** Waves at strictly later instants, each undone by a release. */
  function StoppedWaves(now: Instant, capacity: nat, taken: set<Name>, rounds: nat): seq<Op>
    decreases rounds
  {
    if rounds == 0 then []
    else [Wave(now, capacity, taken), Release] + StoppedWaves(now + 1, capacity, taken, rounds - 1)
  }

  /** Every wave comes at a later instant than the one before. */
  predicate Ascends(ops: seq<Op>) {
    forall i, j :: 0 <= i < j < |ops| && ops[i].Wave? && ops[j].Wave? ==> ops[i].now < ops[j].now
  }

  lemma {:induction false} StoppedWavesAscend(now: Instant, capacity: nat, taken: set<Name>, rounds: nat)
    ensures
      var ops := StoppedWaves(now, capacity, taken, rounds);
      && Ascends(ops)
      && forall i :: 0 <= i < |ops| && ops[i].Wave? ==> now <= ops[i].now
    decreases rounds
  {
    if rounds > 0 {
      StoppedWavesAscend(now + 1, capacity, taken, rounds - 1);
      var ops, rest := StoppedWaves(now, capacity, taken, rounds), StoppedWaves(now + 1, capacity, taken, rounds - 1);
      assert forall i :: 2 <= i < |ops| ==> ops[i] == rest[i - 2];
    }
  }

  lemma {:induction false} StoppedWavesPass(s: State, now: Instant, capacity: nat, taken: set<Name>, x: Name, rounds: nat)
    requires x in s.nextDue && s.running == {} && s.nextDue[x] <= now
    requires Takes(s, now, capacity, taken) && x !in taken
    ensures
      var ops := StoppedWaves(now, capacity, taken, rounds);
      && Waits(s, ops, x, capacity) && Clocked(ops, s.nextDue[x]) && RunOf(s, ops) == s
      && DueWaves(ops, s.nextDue[x]) == Releases(ops) == rounds
    decreases rounds
  {
    if rounds > 0 {
      SameWaveLater(s, now, now + 1, capacity, taken, x);
      StoppedWavesPass(s, now + 1, capacity, taken, x, rounds - 1);
      var ops, rest := StoppedWaves(now, capacity, taken, rounds), StoppedWaves(now + 1, capacity, taken, rounds - 1);
      var started := After(s, ops[0]);
      assert ops[0] == Wave(now, capacity, taken) && ops[1..][0] == Release && ops[1..][1..] == rest;
      assert After(started, Release) == s;
      assert Waits(started, ops[1..], x, capacity);
      assert DueWaves(ops[1..], s.nextDue[x]) == DueWaves(rest, s.nextDue[x]) && Releases(ops[1..]) == 1 + Releases(rest);
    }
  }

  /** With a capacity of inputs before it, `x` can be passed over any number of times by strictly later waves. */
  lemma ManyBeforeCanStarve(s: State, x: Name, capacity: nat, rounds: nat) returns (ops: seq<Op>)
    requires x in s.nextDue && s.running == {} && |Before(s, x)| >= capacity
    ensures Waits(s, ops, x, capacity) && Clocked(ops, s.nextDue[x]) && Ascends(ops)
    ensures DueWaves(ops, s.nextDue[x]) == Releases(ops) == rounds
  {
    var now := s.nextDue[x];
    EarlierIsStrictTotal(KeyOf(s, x), KeyOf(s, x), KeyOf(s, x));
    assert Before(s, x) <= Eligible(s, now);
    CardinalityAtMost(Before(s, x), Eligible(s, now));
    var taken := FirstFew(s, Eligible(s, now), capacity);
    if x in taken {
      forall name | name in Before(s, x)
        ensures name in taken
      {
        EarlierIsStrictTotal(KeyOf(s, x), KeyOf(s, name), KeyOf(s, x));
      }
      CardinalityAtMost(Before(s, x) + {x}, taken);
      assert false;
    }
    ops := StoppedWaves(now, capacity, taken, rounds);
    StoppedWavesPass(s, now, capacity, taken, x, rounds);
    StoppedWavesAscend(now, capacity, taken, rounds);
  }

  /** Some run under a clock that moves on passes over `x`, while it is due, at least `rounds` times. */
  ghost predicate CanBePassed(s: State, x: Name, capacity: nat, rounds: nat)
    requires x in s.nextDue
  {
    exists ops ::
      && Waits(s, ops, x, capacity) && Clocked(ops, s.nextDue[x]) && Ascends(ops)
      && DueWaves(ops, s.nextDue[x]) >= rounds
  }

  /**
   The exact condition: with releases allowed and the clock always moving on, a due input can be
   passed over without bound if and only if a full capacity of inputs is before it; otherwise the
   first wave starts it.
   */
  lemma StarvesExactlyWhen(s: State, x: Name, capacity: nat)
    requires x in s.nextDue && s.running == {}
    ensures (forall rounds :: CanBePassed(s, x, capacity, rounds)) <==> |Before(s, x)| >= capacity
    ensures CanBePassed(s, x, capacity, 1) <==> |Before(s, x)| >= capacity
  {
    if |Before(s, x)| >= capacity {
      forall rounds
        ensures CanBePassed(s, x, capacity, rounds)
      {
        var ops := ManyBeforeCanStarve(s, x, capacity, rounds);
      }
    } else if CanBePassed(s, x, capacity, 1) {
      var ops :| Waits(s, ops, x, capacity) && Clocked(ops, s.nextDue[x]) && DueWaves(ops, s.nextDue[x]) >= 1;
      FewBeforeMeansStarted(s, ops, x, capacity);
    }
  }

  // ---- what is never started ------------------------------------------------------------------

  /** The waves of a run are those the scheduler can make; anything else may happen in between. */
  ghost predicate Happens(s: State, ops: seq<Op>, capacity: nat)
    decreases |ops|
  {
    ops != [] ==>
      && (ops[0].Wave? ==> Takes(s, ops[0].now, capacity, ops[0].taken))
      && Happens(After(s, ops[0]), ops[1..], capacity)
  }

  /** Nothing schedules the input: no sync has it enabled and it does not complete with an interval. */
  predicate LeavesOut(op: Op, x: Name) {
    match op
    case Wave(_, _, _) => true
    case Complete(name, _, interval) => name != x || interval.None?
    case Sync(enabled, _) => x !in enabled
    case Release => true
  }

  /** Neither completed nor disabled. */
  predicate LeavesDue(op: Op, x: Name) {
    match op
    case Wave(_, _, _) => true
    case Complete(name, _, _) => name != x
    case Sync(enabled, _) => x in enabled
    case Release => true
  }

  lemma LeavesOutTail(ops: seq<Op>, x: Name)
    requires ops != [] && forall i :: 0 <= i < |ops| ==> LeavesOut(ops[i], x)
    ensures LeavesOut(ops[0], x) && forall i :: 0 <= i < |ops[1..]| ==> LeavesOut(ops[1..][i], x)
  {
    assert forall i :: 0 <= i < |ops[1..]| ==> ops[1..][i] == ops[i + 1];
  }

  lemma LeavesDueTail(ops: seq<Op>, x: Name)
    requires ops != [] && forall i :: 0 <= i < |ops| ==> LeavesDue(ops[i], x)
    ensures LeavesDue(ops[0], x) && forall i :: 0 <= i < |ops[1..]| ==> LeavesDue(ops[1..][i], x)
  {
    assert forall i :: 0 <= i < |ops[1..]| ==> ops[1..][i] == ops[i + 1];
  }

  lemma {:induction false} UnscheduledNeverStarts(s: State, ops: seq<Op>, x: Name, capacity: nat, k: nat)
    requires x !in s.nextDue && Happens(s, ops, capacity) && k < |ops| && ops[k].Wave?
    requires forall i :: 0 <= i < |ops| ==> LeavesOut(ops[i], x)
    ensures x !in ops[k].taken
    decreases |ops|
  {
    LeavesOutTail(ops, x);
    if k > 0 {
      assert ops[1..][k - 1] == ops[k];
      UnscheduledNeverStarts(After(s, ops[0]), ops[1..], x, capacity, k - 1);
    }
  }

  /**
   Once a sync leaves an input out, no wave starts it until a sync or a completion schedules it again;
   neither does one after it completed without an interval.
   */
  lemma ForgottenNeverStarts(s: State, op: Op, ops: seq<Op>, x: Name, capacity: nat, k: nat)
    requires (op.Sync? && x !in op.enabled) || (op.Complete? && op.name == x && op.interval.None?)
    requires Happens(s, [op] + ops, capacity) && k < |ops| && ops[k].Wave?
    requires forall i :: 0 <= i < |ops| ==> LeavesOut(ops[i], x)
    ensures x !in ops[k].taken
  {
    assert ([op] + ops)[0] == op && ([op] + ops)[1..] == ops;
    UnscheduledNeverStarts(After(s, op), ops, x, capacity, k);
  }

  lemma {:induction false} ScheduledWaits(s: State, ops: seq<Op>, x: Name, capacity: nat, k: nat)
    requires x in s.nextDue && Happens(s, ops, capacity) && k < |ops| && ops[k].Wave? && x in ops[k].taken
    requires forall i :: 0 <= i < |ops| ==> LeavesDue(ops[i], x)
    ensures s.nextDue[x] <= ops[k].now
    decreases |ops|
  {
    LeavesDueTail(ops, x);
    if k > 0 {
      assert ops[1..][k - 1] == ops[k];
      assert x in After(s, ops[0]).nextDue && After(s, ops[0]).nextDue[x] == s.nextDue[x];
      ScheduledWaits(After(s, ops[0]), ops[1..], x, capacity, k - 1);
    }
  }

  /** An input that completed with an interval is not started before that interval is over. */
  lemma IntervalIsKept(s: State, now: Instant, interval: nat, ops: seq<Op>, x: Name, capacity: nat, k: nat)
    requires Happens(s, [Complete(x, now, Some(interval))] + ops, capacity) && k < |ops| && ops[k].Wave? && x in ops[k].taken
    requires forall i :: 0 <= i < |ops| ==> LeavesDue(ops[i], x)
    ensures now + interval <= ops[k].now
  {
    var all := [Complete(x, now, Some(interval))] + ops;
    assert all[0] == Complete(x, now, Some(interval)) && all[1..] == ops;
    ScheduledWaits(After(s, all[0]), ops, x, capacity, k);
  }

  /** A new input is due at once, and one that was scheduled keeps its time. */
  lemma EnabledIsScheduled(s: State, enabled: set<Name>, now: Instant, x: Name)
    requires x in enabled
    ensures
      var after := After(s, Sync(enabled, now));
      && x in after.nextDue
      && (x in s.nextDue ==> after.nextDue[x] == s.nextDue[x])
      && (x !in s.nextDue ==> after.nextDue[x] == now && (x !in s.running ==> x in Eligible(after, now)))
  {
  }

  /** A wave never starts what is running, nothing before it is due, and never more than are free. */
  lemma WaveIsModest(s: State, now: Instant, capacity: nat, taken: set<Name>, x: Name)
    requires Takes(s, now, capacity, taken) && x in taken
    ensures x !in s.running && x in s.nextDue && s.nextDue[x] <= now
    ensures |s.running| + |taken| <= capacity
  {
  }

  /** Whom a wave takes was due before whom it leaves, or at the same instant under a name that comes first. */
  lemma WaveTakesInOrder(s: State, now: Instant, capacity: nat, taken: set<Name>, x: Name, y: Name)
    requires Takes(s, now, capacity, taken) && x in taken
    requires y in s.nextDue && y !in s.running && s.nextDue[y] <= now && y !in taken
    ensures s.nextDue[x] < s.nextDue[y] || (s.nextDue[x] == s.nextDue[y] && Precedes(x, y))
  {
    assert y in Eligible(s, now) - taken;
  }

  /** And it starts them in that order. */
  lemma StartedInOrder(s: State, due: seq<Name>, i: nat, j: nat)
    requires SortedByKey(s, due) && i < j < |due|
    ensures s.nextDue[due[i]] < s.nextDue[due[j]] || (s.nextDue[due[i]] == s.nextDue[due[j]] && Precedes(due[i], due[j]))
  {
    assert Earlier(KeyOf(s, due[i]), KeyOf(s, due[j]));
  }

  /** Whoever is passed over by a wave that is not full is running, not scheduled or not due. */
  lemma WaveTakesAllThatFit(s: State, now: Instant, capacity: nat, taken: set<Name>, x: Name)
    requires Takes(s, now, capacity, taken) && |s.running| + |taken| < capacity && x !in taken
    ensures x in s.running || x !in s.nextDue || now < s.nextDue[x]
  {
    if x in Eligible(s, now) {
      CardinalityAtMost(taken + {x}, Eligible(s, now));
    }
  }

  predicate Agree(a: Name, b: Name, n: nat) {
    n <= |a| && n <= |b| && forall k :: 0 <= k < n ==> a[k] == b[k]
  }

  predicate SmallerAt(a: Name, b: Name, n: nat) {
    n < |a| && n < |b| && Agree(a, b, n) && a[n] < b[n]
  }

  lemma AgreeTail(a: Name, b: Name, n: nat)
    requires a != [] && b != [] && a[0] == b[0]
    ensures Agree(a, b, n + 1) <==> Agree(a[1..], b[1..], n)
    ensures SmallerAt(a, b, n + 1) <==> SmallerAt(a[1..], b[1..], n)
  {
    if Agree(a[1..], b[1..], n) {
      assert forall k :: 1 <= k < n + 1 ==> a[k] == a[1..][k - 1] && b[k] == b[1..][k - 1];
    }
  }

  /** Names are ordered as texts: a beginning comes first, otherwise the first difference decides. */
  lemma {:induction false} PrecedesMeans(a: Name, b: Name)
    ensures Precedes(a, b) <==> (|a| < |b| && Agree(a, b, |a|)) || exists n: nat :: SmallerAt(a, b, n)
  {
    if a != [] && b != [] && a[0] == b[0] {
      PrecedesMeans(a[1..], b[1..]);
      AgreeTail(a, b, |a| - 1);
      if n: nat :| SmallerAt(a, b, n) {
        assert n > 0;
        AgreeTail(a, b, n - 1);
      }
      if n: nat :| SmallerAt(a[1..], b[1..], n) {
        AgreeTail(a, b, n);
      }
    } else if a != [] && b != [] {
      assert a[0] < b[0] ==> SmallerAt(a, b, 0);
    }
  }

  /** No wave starts while a worker is left, or while the backlog is not known to be drained. */
  lemma WavesComeOneByOne(activeWorkers: nat, backlogDrained: Option<bool>)
    ensures WaveMayStart(activeWorkers, backlogDrained) ==> activeWorkers == 0 && backlogDrained != None && backlogDrained != Some(false)
    ensures WaveMayStart(0, Some(true))
  {
  }
}
