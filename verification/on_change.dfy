/**
 * `onChange(each:action:)`: observes a parameter pack of equatable values by
 * boxing it, so that the framework's `onChange(of:)` compares the boxes.
 * A pack is modelled as a sequence; two packs of the same type have the same
 * length.
 */
module OnChange {

  /** Two packs agree pair by pair (packs of different lengths never arise). */
  predicate PackEqual<E(==)>(lhs: seq<E>, rhs: seq<E>)
  {
    |lhs| == |rhs| && forall i :: 0 <= i < |lhs| ==> lhs[i] == rhs[i]
  }

  /** Pairwise agreement is plain equality of the packs. */
  lemma PackEqualIsEquality<E>(lhs: seq<E>, rhs: seq<E>)
    ensures PackEqual(lhs, rhs) <==> lhs == rhs
  {
  }

  /**
   * The `for`/`guard` scan over corresponding elements: `false` at the first
   * unequal pair, `true` once every pair compared equal (at once for empty
   * packs). `compared` counts the pairs looked at.
   */
  method ScanEqual<E(==)>(lhs: seq<E>, rhs: seq<E>) returns (equal: bool, ghost compared: nat)
    requires |lhs| == |rhs|
    ensures equal <==> PackEqual(lhs, rhs)
    ensures equal ==> compared == |lhs|
    ensures !equal ==> 0 < compared <= |lhs| && lhs[..compared - 1] == rhs[..compared - 1]
                       && lhs[compared - 1] != rhs[compared - 1]
  {
    var i := 0;
    while i < |lhs|
      invariant 0 <= i <= |lhs|
      invariant lhs[..i] == rhs[..i]
    {
      if lhs[i] != rhs[i] {
        return false, i + 1;
      }
      i := i + 1;
    }
    return true, |lhs|;
  }

  /** `TupleBox`: a value with the equality used to compare it. */
  datatype TupleBox<!T> = TupleBox(value: T, isEqual: (T, T) -> bool)

  /**
   * `TupleBox ==`: the left box's `isEqual` applied to the two values; a box
   * whose closure is value equality compares equal exactly when the values do.
   */
  function TupleBoxEquals<T(==,!new)>(lhs: TupleBox<T>, rhs: TupleBox<T>): (r: bool)
    ensures (forall a, b :: lhs.isEqual(a, b) <==> a == b) ==> (r <==> lhs.value == rhs.value)
  {
    lhs.isEqual(lhs.value, rhs.value)
  }

  /** The `TupleBox` that `onChange(each:)` builds before iOS 17, comparing pair by pair. */
  function PackBox<E(==,!new)>(values: seq<E>): (b: TupleBox<seq<E>>)
    ensures b.value == values
    ensures forall l, r :: b.isEqual(l, r) <==> l == r
  {
    var b := TupleBox(values, (l: seq<E>, r: seq<E>) => PackEqual(l, r));
    assert forall l, r :: b.isEqual(l, r) <==> l == r by {
      forall l: seq<E>, r: seq<E>
        ensures b.isEqual(l, r) <==> l == r
      {
        PackEqualIsEquality(l, r);
      }
    }
    b
  }

  /** Two boxes built by `onChange(each:)` compare equal exactly when the packs are equal. */
  lemma PackBoxEquality<E(!new)>(lhs: seq<E>, rhs: seq<E>)
    ensures TupleBoxEquals(PackBox(lhs), PackBox(rhs)) <==> lhs == rhs
  {
    PackEqualIsEquality(lhs, rhs);
  }

  /** `RepeatingBox`: the pack itself, used from iOS 17. */
  datatype RepeatingBox<E> = RepeatingBox(value: seq<E>)

  /** `RepeatingBox ==`: the same pairwise scan over the two packs. */
  method RepeatingBoxEquals<E(==)>(lhs: RepeatingBox<E>, rhs: RepeatingBox<E>) returns (equal: bool)
    requires |lhs.value| == |rhs.value|
    ensures equal <==> lhs == rhs
  {
    ghost var compared;
    equal, compared := ScanEqual(lhs.value, rhs.value);
  }

  /**
   * One update of `onChange(each:)`, given the pack seen before and now: the
   * framework calls `perform` when the new box is not `==` to the previous
   * one, and `perform` calls `action` with no arguments. Both boxes make the
   * action run exactly when some element changed.
   */
  method OnChangeEach<E(==,!new)>(previous: seq<E>, current: seq<E>, iOS17: bool) returns (actionCalled: bool)
    requires |previous| == |current|
    ensures actionCalled <==> exists i :: 0 <= i < |previous| && previous[i] != current[i]
  {
    if iOS17 {
      var same := RepeatingBoxEquals(RepeatingBox(previous), RepeatingBox(current));
      actionCalled := !same;
    } else {
      PackEqualIsEquality(previous, current);
      actionCalled := !TupleBoxEquals(PackBox(previous), PackBox(current));
    }
  }
}
