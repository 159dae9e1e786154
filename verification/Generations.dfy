/** Configuration generations of batch inputs: which one an activation gives, and that none is reused. */
module Generations {
  import opened Wrappers

  type Name = string
  type RevisionId = Bytes

  datatype Active = Active(revision: RevisionId, generation: U64)

  datatype State = State(highWater: map<Name, U64>, active: map<Name, Active>)

  datatype GenerationError = GenerationUnavailable

  function HighWater(s: State, name: Name): U64 {
    if name in s.highWater then s.highWater[name] else 0
  }

  /** An unchanged revision keeps its generation; any other takes the one after the high-water mark. */
  function NextGeneration(s: State, name: Name, revision: RevisionId): Option<U64> {
    if name in s.active && s.active[name].revision == revision then Some(s.active[name].generation)
    else if HighWater(s, name) < MAX_U64 then Some(HighWater(s, name) + 1)
    else None
  }

  predicate Activatable(s: State, revisions: map<Name, RevisionId>) {
    forall name :: name in revisions ==> NextGeneration(s, name, revisions[name]).Some?
  }

  /** A successful activation: exactly the named inputs are active, each with its generation. */
  ghost predicate Activates(s: State, revisions: map<Name, RevisionId>, next: State) {
    && Activatable(s, revisions)
    && next.active.Keys == revisions.Keys
    && (forall name :: name in revisions ==>
          next.active[name] == Active(revisions[name], NextGeneration(s, name, revisions[name]).value))
    && next.highWater.Keys == s.highWater.Keys + revisions.Keys
    && (forall name :: name in next.highWater ==>
          next.highWater[name] == if name in revisions then next.active[name].generation else s.highWater[name])
  }

  /** A failed activation keeps what is active, but has already moved some high-water marks. */
  ghost predicate FailsHalfway(s: State, revisions: map<Name, RevisionId>, next: State) {
    && !Activatable(s, revisions)
    && next.active == s.active
    && s.highWater.Keys <= next.highWater.Keys
    && forall name :: name in next.highWater ==>
         || (name in s.highWater && next.highWater[name] == s.highWater[name])
         || (name in revisions && NextGeneration(s, name, revisions[name]) == Some(next.highWater[name]))
  }

  /** The loop of an activation when the names in `rest` are still to come. */
  ghost predicate Partial(
      s: State, revisions: map<Name, RevisionId>, rest: set<Name>, highWater: map<Name, U64>, nextActive: map<Name, Active>)
  {
    && rest <= revisions.Keys
    && nextActive.Keys == revisions.Keys - rest
    && (forall name :: name in nextActive ==>
          && NextGeneration(s, name, revisions[name]) == Some(nextActive[name].generation)
          && nextActive[name].revision == revisions[name])
    && highWater.Keys == s.highWater.Keys + nextActive.Keys
    && (forall name :: name in highWater ==>
          highWater[name] == if name in nextActive then nextActive[name].generation else s.highWater[name])
  }

  /** A name still to come has its old high-water mark. */
  lemma PartialSees(
      s: State, revisions: map<Name, RevisionId>, rest: set<Name>, highWater: map<Name, U64>,
      nextActive: map<Name, Active>, name: Name)
    requires Partial(s, revisions, rest, highWater, nextActive) && name in rest
    ensures NextGeneration(State(highWater, s.active), name, revisions[name]) == NextGeneration(s, name, revisions[name])
  {
    assert name in highWater <==> name in s.highWater;
  }

  lemma PartialMore(
      s: State, revisions: map<Name, RevisionId>, rest: set<Name>, highWater: map<Name, U64>,
      nextActive: map<Name, Active>, name: Name)
    requires Partial(s, revisions, rest, highWater, nextActive) && name in rest
    requires NextGeneration(s, name, revisions[name]).Some?
    ensures
      var generation := NextGeneration(s, name, revisions[name]).value;
      Partial(
        s, revisions, rest - {name}, highWater[name := generation],
        nextActive[name := Active(revisions[name], generation)])
  {
  }

  lemma PartialBegins(s: State, revisions: map<Name, RevisionId>)
    ensures Partial(s, revisions, revisions.Keys, s.highWater, map[])
  {
  }

  lemma PartialEnds(s: State, revisions: map<Name, RevisionId>, highWater: map<Name, U64>, nextActive: map<Name, Active>)
    requires Partial(s, revisions, {}, highWater, nextActive)
    ensures Activates(s, revisions, State(highWater, nextActive))
  {
  }

  lemma PartialFails(
      s: State, revisions: map<Name, RevisionId>, rest: set<Name>, highWater: map<Name, U64>,
      nextActive: map<Name, Active>, name: Name)
    requires Partial(s, revisions, rest, highWater, nextActive) && name in rest
    requires NextGeneration(s, name, revisions[name]).None?
    ensures FailsHalfway(s, revisions, State(highWater, s.active))
  {
  }

  class ConfigurationGenerations {
    var highWater: map<Name, U64>
    var active: map<Name, Active>

    function Value(): State
      reads this
    {
      State(highWater, active)
    }

    constructor ()
      ensures Value() == State(map[], map[])
    {
      highWater, active := map[], map[];
    }

    constructor Clone(state: State)
      ensures Value() == state
    {
      highWater, active := state.highWater, state.active;
    }

    method ActivateRevisions(revisions: map<Name, RevisionId>) returns (r: Outcome<GenerationError>)
      modifies this
      ensures r.Pass? <==> Activatable(old(Value()), revisions)
      ensures r.Pass? ==> Activates(old(Value()), revisions, Value())
      ensures r.Fail? ==> FailsHalfway(old(Value()), revisions, Value())
    {
      ghost var before := Value();
      var nextActive: map<Name, Active> := map[];
      var rest := revisions.Keys;
      PartialBegins(before, revisions);
      while rest != {}
        invariant active == before.active
        invariant Partial(before, revisions, rest, highWater, nextActive)
        decreases |rest|
      {
        var name :| name in rest;
        PartialSees(before, revisions, rest, highWater, nextActive, name);
        var generation := NextGeneration(Value(), name, revisions[name]);
        if generation.None? {
          PartialFails(before, revisions, rest, highWater, nextActive, name);
          return Fail(GenerationUnavailable);
        }
        PartialMore(before, revisions, rest, highWater, nextActive, name);
        highWater := highWater[name := generation.value];
        nextActive := nextActive[name := Active(revisions[name], generation.value)];
        rest := rest - {name};
      }
      PartialEnds(before, revisions, highWater, nextActive);
      active := nextActive;
      return Pass;
    }
  }

  // ---- what one activation gives --------------------------------------------------------------

  /**
   An unchanged revision keeps its generation; a new or changed one takes exactly the one after the
   high-water mark, the first one being one; what is not named is no longer active but stays counted.
   */
  lemma ActivationGives(s: State, revisions: map<Name, RevisionId>, next: State, name: Name)
    requires Activates(s, revisions, next)
    ensures name in next.active <==> name in revisions
    ensures name in revisions ==> next.active[name].revision == revisions[name]
    ensures name in revisions && name in s.active && s.active[name].revision == revisions[name] ==>
              next.active[name] == s.active[name] && next.highWater[name] == s.active[name].generation
    ensures name in revisions && !(name in s.active && s.active[name].revision == revisions[name]) ==>
              next.highWater[name] == next.active[name].generation
              && next.active[name].generation == (if name in s.highWater then s.highWater[name] else 0) + 1
    ensures name !in revisions ==> (name in next.highWater <==> name in s.highWater)
    ensures name !in revisions && name in s.highWater ==> next.highWater[name] == s.highWater[name]
  {
  }

  /** It fails exactly if a new or changed revision finds its mark at the last 64-bit number. */
  lemma ActivatableExactlyWhen(s: State, revisions: map<Name, RevisionId>)
    ensures Activatable(s, revisions) <==>
      forall name :: name in revisions && name in s.highWater && s.highWater[name] == MAX_U64 ==>
        name in s.active && s.active[name].revision == revisions[name]
  {
    forall name | name in revisions
      ensures NextGeneration(s, name, revisions[name]).None? <==>
              && name in s.highWater && s.highWater[name] == MAX_U64
              && !(name in s.active && s.active[name].revision == revisions[name])
    {
    }
  }

  // ---- no reuse over any run ------------------------------------------------------------------

  /** Any sequence of activations, failed ones included, from the empty state. */
  ghost predicate Run(states: seq<State>) {
    && states != [] && states[0] == State(map[], map[])
    && forall i :: 0 <= i < |states| - 1 ==> Moves(states[i], states[i + 1])
  }

  ghost predicate Moves(s: State, next: State) {
    exists revisions :: Activates(s, revisions, next) || FailsHalfway(s, revisions, next)
  }

  /** What one input sees of the state. */
  datatype View = View(high: U64, active: Option<Active>)

  function Look(s: State, name: Name): View {
    View(HighWater(s, name), if name in s.active then Some(s.active[name]) else None)
  }

  /** What an activation, a failed one included, may do to one input. */
  predicate ViewMoves(v: View, next: View) {
    || (next.active.None? && next.high == v.high)
    || (&& next.active.Some? && next.high == next.active.value.generation
        && if v.active.Some? && v.active.value.revision == next.active.value.revision then next.active == v.active
           else next.high == v.high + 1)
    || (next.active == v.active && (next.high == v.high || next.high == v.high + 1))
    || (next.active == v.active && v.active.Some? && next.high == v.active.value.generation)
  }

  lemma MoveOfOne(s: State, next: State, name: Name)
    requires Moves(s, next)
    ensures ViewMoves(Look(s, name), Look(next, name))
  {
    var revisions :| Activates(s, revisions, next) || FailsHalfway(s, revisions, next);
    if name in revisions {
      assert NextGeneration(s, name, revisions[name]) == NextGeneration(s, name, revisions[name]);
    }
  }

  /** What is active lies at or below the high-water mark. */
  predicate Healthy(v: View) {
    v.active.Some? ==> v.active.value.generation <= v.high
  }

  /** `a` lies under every generation still to be given, and under or at the active one. */
  predicate Below(a: Active, v: View) {
    && a.generation <= v.high
    && (v.active.Some? ==>
          && a.generation <= v.active.value.generation
          && (a.generation == v.active.value.generation ==> a.revision == v.active.value.revision))
  }

  lemma MoveKeepsBelow(v: View, next: View, a: Active)
    requires ViewMoves(v, next) && Healthy(v)
    ensures Healthy(next)
    ensures Below(a, v) ==> Below(a, next)
    ensures next.active.Some? ==> Below(next.active.value, next)
  {
  }

  lemma {:induction false} RunIsHealthy(states: seq<State>, n: nat, name: Name)
    requires Run(states) && n < |states|
    ensures Healthy(Look(states[n], name))
  {
    if n > 0 {
      var m := n - 1;
      RunIsHealthy(states, m, name);
      assert Moves(states[m], states[m + 1]);
      MoveOfOne(states[m], states[n], name);
    }
  }

  lemma {:induction false} ActiveStaysBelow(states: seq<State>, i: nat, j: nat, name: Name)
    requires Run(states) && i <= j < |states| && name in states[i].active
    ensures Below(states[i].active[name], Look(states[j], name))
    decreases j - i
  {
    RunIsHealthy(states, i, name);
    if i < j {
      var m := j - 1;
      ActiveStaysBelow(states, i, m, name);
      RunIsHealthy(states, m, name);
      assert Moves(states[m], states[m + 1]);
      MoveOfOne(states[m], states[j], name);
      MoveKeepsBelow(Look(states[m], name), Look(states[j], name), states[i].active[name]);
    }
  }

  /**
   Over any activations, removals, returns and failures included, the generations of an input never
   go down, and one generation is never active for two revisions.
   */
  lemma GenerationsAreNotReused(states: seq<State>, i: nat, j: nat, name: Name)
    requires Run(states) && i <= j < |states|
    requires name in states[i].active && name in states[j].active
    ensures states[i].active[name].generation <= states[j].active[name].generation
    ensures states[i].active[name].generation == states[j].active[name].generation ==>
              states[i].active[name].revision == states[j].active[name].revision
  {
    ActiveStaysBelow(states, i, j, name);
  }

  // ---- when a high-water mark goes down -------------------------------------------------------

  /** A requested revision that is active already, under a generation the mark has left behind. */
  predicate LeftBehind(s: State, name: Name, revision: RevisionId) {
    name in s.active && s.active[name].revision == revision && s.active[name].generation < HighWater(s, name)
  }

  /** An activation lowers a mark exactly when it keeps a revision whose generation the mark has left behind. */
  lemma ActivationLowersExactly(s: State, revisions: map<Name, RevisionId>, next: State, name: Name)
    requires Activates(s, revisions, next)
    ensures HighWater(next, name) < HighWater(s, name) <==> name in revisions && LeftBehind(s, name, revisions[name])
  {
    if name in revisions {
      assert next.highWater[name] == NextGeneration(s, name, revisions[name]).value;
    }
  }

  /** A run in which every activation succeeds, as where a failed one is discarded with its copy. */
  ghost predicate SuccessfulRun(states: seq<State>) {
    && states != [] && states[0] == State(map[], map[])
    && forall i :: 0 <= i < |states| - 1 ==> Succeeds(states[i], states[i + 1])
  }

  ghost predicate Succeeds(s: State, next: State) {
    exists revisions :: Activates(s, revisions, next)
  }

  predicate MarksAgree(s: State) {
    forall name :: name in s.active ==> s.active[name].generation == HighWater(s, name)
  }

  lemma {:induction false} SuccessKeepsMarks(states: seq<State>, n: nat)
    requires SuccessfulRun(states) && n < |states|
    ensures MarksAgree(states[n])
  {
    if n > 0 {
      var m := n - 1;
      SuccessKeepsMarks(states, m);
      assert Succeeds(states[m], states[m + 1]);
      var revisions :| Activates(states[m], revisions, states[n]);
    }
  }

  /** Without failures kept, a mark never goes down: every activation's mark is the active generation. */
  lemma {:induction false} MarksNeverGoDown(states: seq<State>, i: nat, j: nat, name: Name)
    requires SuccessfulRun(states) && i <= j < |states|
    ensures HighWater(states[i], name) <= HighWater(states[j], name)
    decreases j - i
  {
    if i < j {
      var m := j - 1;
      MarksNeverGoDown(states, i, m, name);
      SuccessKeepsMarks(states, m);
      assert Succeeds(states[m], states[m + 1]);
      var revisions :| Activates(states[m], revisions, states[j]);
      ActivationLowersExactly(states[m], revisions, states[j], name);
    }
  }

  /**
   A witness on the structure alone, which the daemon's copies rule out: from a state whose marks
   agree, a failed activation that is kept leaves a revision behind, and its return lowers the mark.
   */
  lemma KeptFailureLowersMark(a: RevisionId, b: RevisionId, g: U64) returns (s: State, failed: State, next: State)
    requires a != b && 1 <= g < MAX_U64
    ensures MarksAgree(s) && FailsHalfway(s, map["x" := b, "y" := b], failed) && Activates(failed, map["x" := a], next)
    ensures HighWater(next, "x") < HighWater(failed, "x")
  {
    s := State(map["x" := g, "y" := MAX_U64], map["x" := Active(a, g)]);
    failed := s.(highWater := map["x" := g + 1, "y" := MAX_U64]);
    next := s;
    var revisions: map<Name, RevisionId> := map["x" := b, "y" := b];
    assert "y" in revisions && NextGeneration(s, "y", b) == None && NextGeneration(s, "x", b) == Some(g + 1);
    assert LeftBehind(failed, "x", a);
    ActivationLowersExactly(failed, map["x" := a], next, "x");
  }
}
