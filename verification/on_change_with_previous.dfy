/**
 * `ChangeModifier` behind `onChangeWithPrevious(of:emitsInitial:perform:)`:
 * every value received drives one step that may call the action with the new
 * value and the previous one.
 */
module OnChangeWithPrevious {

  import opened Wrappers

  /** The arguments of one call of the action: `(newValue, oldValue)`. */
  datatype Emission<V> = Emission(newValue: V, oldValue: Option<V>)

  /** The modifier's `@State`: the last value acted on, and how many times the action ran. */
  datatype ChangeState<V> = ChangeState(oldValue: Option<V>, emitCount: nat)

  /** The state `init` sets up: `oldValue` seeded with the observed value, no emission yet. */
  function Initial<V>(value: V): (s: ChangeState<V>)
  {
    ChangeState(Some(value), 0)
  }

  /** The state after one step, and the action call it made, if any. */
  datatype Step<V> = Step(state: ChangeState<V>, fired: Option<Emission<V>>)

  /**
   * One `onReceive` step. With `emitsInitial` the first step calls the
   * action with no old value and leaves `oldValue` alone; otherwise a value
   * equal to `oldValue` returns early, and a different one calls the action
   * with both values and becomes the new `oldValue`. `emitCount` counts the
   * calls.
   */
  function Receive<V(==)>(s: ChangeState<V>, emitsInitial: bool, newValue: V): (r: Step<V>)
    ensures r.fired.Some? <==> (emitsInitial && s.emitCount == 0) || s.oldValue != Some(newValue)
    ensures r.state.emitCount == s.emitCount + (if r.fired.Some? then 1 else 0)
    ensures r.fired.Some? ==> r.fired.value.newValue == newValue && r.fired.value.oldValue != Some(newValue)
    ensures r.fired.None? ==> r.state == s
    ensures r.state.oldValue == s.oldValue || r.state.oldValue == Some(newValue)
    ensures r.fired.Some? && r.fired.value.oldValue.Some? ==> r.state.oldValue == Some(newValue)
    ensures emitsInitial && s.emitCount == 0 ==>
              r.fired == Some(Emission(newValue, None)) && r.state == ChangeState(s.oldValue, 1)
    ensures !(emitsInitial && s.emitCount == 0) && s.oldValue != Some(newValue) ==>
              r.fired == Some(Emission(newValue, s.oldValue)) && r.state.oldValue == Some(newValue)
  {
    if emitsInitial && s.emitCount == 0 then
      Step(ChangeState(s.oldValue, s.emitCount + 1), Some(Emission(newValue, None)))
    else if s.oldValue == Some(newValue) then
      Step(s, None)
    else
      Step(ChangeState(Some(newValue), s.emitCount + 1), Some(Emission(newValue, s.oldValue)))
  }

  /** The outcome of a series of steps: the final state and the action calls, in order. */
  datatype Trace<V> = Trace(state: ChangeState<V>, emitted: seq<Emission<V>>)

  /** Steps through `values` from `s`. */
  function Run<V(==)>(s: ChangeState<V>, emitsInitial: bool, values: seq<V>): (t: Trace<V>)
    decreases |values|
  {
    if values == [] then Trace(s, [])
    else
      var step := Receive(s, emitsInitial, values[0]);
      var rest := Run(step.state, emitsInitial, values[1..]);
      Trace(rest.state, (if step.fired.Some? then [step.fired.value] else []) + rest.emitted)
  }

  /** `emitCount` always equals the number of times the action was called. */
  lemma {:induction false} EmitCountCountsActions<V>(s: ChangeState<V>, emitsInitial: bool, values: seq<V>)
    ensures Run(s, emitsInitial, values).state.emitCount == s.emitCount + |Run(s, emitsInitial, values).emitted|
    decreases |values|
  {
    if values != [] {
      var step := Receive(s, emitsInitial, values[0]);
      EmitCountCountsActions(step.state, emitsInitial, values[1..]);
    }
  }

  /**
   * The calls form a chain from `start`: each call's old value is `start`
   * for the first call and the previous call's new value after that, and
   * differs from the call's own new value.
   */
  ghost predicate Chained<V>(start: Option<V>, es: seq<Emission<V>>)
    decreases |es|
  {
    es == [] ||
    (es[0].oldValue == start && start != Some(es[0].newValue) && Chained(Some(es[0].newValue), es[1..]))
  }

  /** `start` if nothing was emitted, else the last new value emitted. */
  function LastValue<V>(start: Option<V>, es: seq<Emission<V>>): Option<V>
  {
    if es == [] then start else Some(es[|es| - 1].newValue)
  }

  /**
   * Past the initial emission, the calls are chained from the `oldValue` at
   * the start, and `oldValue` ends at the last new value passed.
   */
  lemma {:induction false} ChangesAreChained<V>(s: ChangeState<V>, emitsInitial: bool, values: seq<V>)
    requires s.oldValue.Some?
    requires !emitsInitial || s.emitCount > 0
    ensures Chained(s.oldValue, Run(s, emitsInitial, values).emitted)
    ensures Run(s, emitsInitial, values).state.oldValue == LastValue(s.oldValue, Run(s, emitsInitial, values).emitted)
    decreases |values|
  {
    if values != [] {
      var step := Receive(s, emitsInitial, values[0]);
      var rest := Run(step.state, emitsInitial, values[1..]);
      ChangesAreChained(step.state, emitsInitial, values[1..]);
      var t := Run(s, emitsInitial, values);
      if step.fired.Some? {
        assert t.emitted == [step.fired.value] + rest.emitted;
        assert t.emitted[1..] == rest.emitted;
      } else {
        assert t.emitted == rest.emitted;
      }
    }
  }

  /** Without `emitsInitial`, values that all equal the observed value call nothing. */
  lemma {:induction false} UnchangedValueIsSilent<V>(value: V, values: seq<V>)
    requires forall i :: 0 <= i < |values| ==> values[i] == value
    ensures Run(Initial(value), false, values) == Trace(Initial(value), [])
    decreases |values|
  {
    if values != [] {
      UnchangedValueIsSilent(value, values[1..]);
    }
  }

  /**
   * With `emitsInitial`, the first value is passed with no old value and
   * leaves `oldValue` at the observed value; the calls after it are chained
   * from that observed value, so each carries an old value.
   */
  lemma InitialEmittedOnce<V>(value: V, values: seq<V>)
    requires values != []
    ensures var t := Run(Initial(value), true, values);
      && t.emitted != []
      && t.emitted[0] == Emission(values[0], None)
      && Chained(Some(value), t.emitted[1..])
  {
    var step := Receive(Initial(value), true, values[0]);
    var rest := Run(step.state, true, values[1..]);
    ChangesAreChained(step.state, true, values[1..]);
    var t := Run(Initial(value), true, values);
    assert t.emitted == [Emission(values[0], None)] + rest.emitted;
    assert t.emitted[1..] == rest.emitted;
  }

  class ChangeModifier<V(==)> {

    const emitsInitial: bool
    var oldValue: Option<V>
    var emitCount: nat
    /** The calls made to the action so far. */
    ghost var actions: seq<Emission<V>>

    ghost predicate Valid()
      reads this
    {
      emitCount == |actions| && oldValue.Some?
    }

    function State(): ChangeState<V>
      reads this
    {
      ChangeState(oldValue, emitCount)
    }

    constructor (value: V, emitsInitial: bool)
      ensures Valid() && State() == Initial(value) && actions == []
      ensures this.emitsInitial == emitsInitial
    {
      this.emitsInitial := emitsInitial;
      oldValue := Some(value);
      emitCount := 0;
      actions := [];
    }

    /** `onReceive`: one step; `fired` holds the arguments the action was called with. */
    method OnReceive(newValue: V) returns (fired: Option<Emission<V>>)
      requires Valid()
      modifies this
      ensures Valid()
      ensures Step(State(), fired) == Receive(old(State()), emitsInitial, newValue)
      ensures actions == old(actions) + (if fired.Some? then [fired.value] else [])
    {
      if emitsInitial && emitCount == 0 {
        fired := Some(Emission(newValue, None));
      } else {
        if Some(newValue) == oldValue {
          return None;
        }
        fired := Some(Emission(newValue, oldValue));
        oldValue := Some(newValue);
      }
      emitCount := emitCount + 1;
      actions := actions + [fired.value];
    }
  }
}
