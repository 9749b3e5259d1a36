/**
 * `ObjectEdge`: a property wrapper whose `@State` box holds an object built
 * lazily by the wrapper's factory on the first read.
 */
module ObjectEdgeProperty {

  import opened Wrappers
  import opened LazySlot

  /** `Box`: the reference the wrapper's `@State` keeps across view updates. */
  class Box<O> {
    var value: Option<O>

    constructor ()
      ensures value == None
    {
      value := None;
    }
  }

  class ObjectEdge<O> {

    const box: Box<O>
    /** How many times the factory has run. */
    ghost var factoryRuns: nat

    /** The factory ran once if and only if the box is filled. */
    ghost predicate Valid()
      reads this, box
    {
      factoryRuns == if box.value.Some? then 1 else 0
    }

    /** `init`: only captures the factory, leaving the box empty. */
    constructor ()
      ensures Valid() && fresh(box)
      ensures box.value == None && factoryRuns == 0
    {
      box := new Box();
      factoryRuns := 0;
    }

    /**
     * `wrappedValue`: the boxed object, built by the factory (`built`) and
     * stored on the first read only.
     */
    method WrappedValue(built: O) returns (v: O)
      requires Valid()
      modifies this, box
      ensures Valid() && factoryRuns <= 1
      ensures Access(box.value, v, factoryRuns != old(factoryRuns)) == Read(old(box.value), built)
    {
      match box.value
      case Some(value) =>
        return value;
      case None =>
        box.value := Some(built);
        factoryRuns := factoryRuns + 1;
        return box.value.value;
    }
  }
}
