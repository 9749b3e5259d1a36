/**
 * `_StateObject`: a back-port of `@StateObject`. A `@State` wrapper holds the
 * object, built lazily by the thunk; `update()` fills it if needed and
 * publishes it to an observed wrapper.
 */
module StateObjectProperty {

  import opened Wrappers
  import opened LazySlot

  /** `Wrapper`: an observable reference holding the object, if built. */
  class Wrapper<W> {
    var value: Option<W>

    constructor ()
      ensures value == None
    {
      value := None;
    }
  }

  /** The two wrapper slots and how many times the thunk has run. */
  datatype Slots<W> = Slots(state: Option<W>, observed: Option<W>, thunkRuns: nat)

  /**
   * The thunk ran once if and only if `state` is filled, and `observed` is
   * empty or holds the very object in `state`.
   */
  ghost predicate Consistent<W>(s: Slots<W>)
  {
    && s.thunkRuns == (if s.state.Some? then 1 else 0)
    && (s.observed.Some? ==> s.observed == s.state)
  }

  /** What the framework does with the wrapper: read `wrappedValue` or call `update()`. */
  datatype Op<W> = Get(built: W) | UpdateCall(built: W)

  /**
   * One operation. Both fill `state` lazily from the thunk (`built`);
   * `update()` then copies `state` into `observed` when they are not
   * identical.
   */
  function Apply<W(==)>(s: Slots<W>, op: Op<W>): (t: Slots<W>)
  {
    var a := Read(s.state, op.built);
    var runs := s.thunkRuns + (if a.factoryRan then 1 else 0);
    match op
    case Get(_) => Slots(a.slot, s.observed, runs)
    case UpdateCall(_) => Slots(a.slot, if s.observed != a.slot then a.slot else s.observed, runs)
  }

  function ApplyAll<W(==)>(s: Slots<W>, ops: seq<Op<W>>): (t: Slots<W>)
    decreases |ops|
  {
    if ops == [] then s else ApplyAll(Apply(s, ops[0]), ops[1..])
  }

  /**
   * Over any interleaving of reads and updates the thunk runs at most once,
   * and once `state` holds an object it keeps holding that same object.
   */
  lemma {:induction false} ThunkRunsAtMostOnce<W>(s: Slots<W>, ops: seq<Op<W>>)
    requires Consistent(s)
    ensures Consistent(ApplyAll(s, ops)) && ApplyAll(s, ops).thunkRuns <= 1
    ensures s.state.Some? ==> ApplyAll(s, ops).state == s.state
    decreases |ops|
  {
    if ops != [] {
      ThunkRunsAtMostOnce(Apply(s, ops[0]), ops[1..]);
    }
  }

  /** After `update()`, `state` is filled and `observed` holds the identical object. */
  lemma UpdatePublishes<W>(s: Slots<W>, built: W)
    ensures var t := Apply(s, UpdateCall(built));
      t.state.Some? && t.observed == t.state
    ensures s.state.Some? ==> Apply(s, UpdateCall(built)).state == s.state
  {
  }

  /** A second `update()` changes neither slot and does not run the thunk. */
  lemma UpdateIdempotent<W>(s: Slots<W>, built1: W, built2: W)
    ensures Apply(Apply(s, UpdateCall(built1)), UpdateCall(built2)) == Apply(s, UpdateCall(built1))
  {
  }

  class StateObject<W(==)> {

    const state: Wrapper<W>
    const observedObject: Wrapper<W>
    /** How many times the thunk has run. */
    ghost var thunkRuns: nat

    ghost function Current(): Slots<W>
      reads this, state, observedObject
    {
      Slots(state.value, observedObject.value, thunkRuns)
    }

    ghost predicate Valid()
      reads this, state, observedObject
    {
      state != observedObject && Consistent(Current())
    }

    /** `init`: only stores the thunk; both wrappers start empty. */
    constructor ()
      ensures Valid() && fresh(state) && fresh(observedObject)
      ensures Current() == Slots(None, None, 0)
    {
      state := new Wrapper();
      observedObject := new Wrapper();
      thunkRuns := 0;
    }

    /** `wrappedValue`: the object in `state`, built by the thunk on first use. */
    method WrappedValue(built: W) returns (v: W)
      requires Valid()
      modifies this, state
      ensures Valid()
      ensures v == Read(old(state.value), built).result
      ensures Current() == Apply(old(Current()), Get(built))
    {
      match state.value
      case Some(obj) =>
        return obj;
      case None =>
        var obj := built;
        state.value := Some(obj);
        thunkRuns := thunkRuns + 1;
        return obj;
    }

    /** `update()`: fills `state` if empty, then publishes it to `observedObject`. */
    method Update(built: W)
      requires Valid()
      modifies this, state, observedObject
      ensures Valid()
      ensures Current() == Apply(old(Current()), UpdateCall(built))
      ensures state.value.Some? && observedObject.value == state.value
    {
      if state.value == None {
        state.value := Some(built);
        thunkRuns := thunkRuns + 1;
      }
      if observedObject.value != state.value {
        observedObject.value := state.value;
      }
    }
  }
}
