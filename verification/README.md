# swiftui-support, modelled in Dafny

A model of the self-contained logic in the SwiftUI helper library
swiftui-support. The rendering glue around it is not modelled. The model
has five pieces, and each has proofs of the properties its code promises.

- **Rubber banding and drag offsets** (`geometry.dfy`, `rubber_banding.dfy`,
  `velocity_dragging.dfy`).
  - `rubberBand(value:min:max:bandLength:)` and its `band` closure, over
    reals. Bounds may be `±infinity` (`Geometry.Extended`).
  - The `@State position` of `RubberBandingModifier` and of
    `VelocityDraggingModifier`, as classes. `onChanged` overwrites the
    position per axis: under an axis mask, with a boundary per axis.
    `onEnded` resets it to zero and returns the springs built from the
    release velocity mapped by the remaining distance.
  - `SpringParameter.hard`, `Boundary` and `Boundary.infinity`.
  - The sliding preference and its `reduce`.
- **`onChangeWithPrevious`** (`on_change_with_previous.dfy`).
  - The `ChangeModifier` state (`oldValue`, `emitCount`) and its `onReceive`
    step. The step is a pure function `Receive`, which the class method
    `OnReceive` is proved to follow.
  - Traces of many steps: `emitCount` counts the action calls; the calls
    chain old to new; an unchanged value is silent; the `emitsInitial` call
    comes first.
- **`measureSize`** (`sizing.dfy`).
  - The `SizeStackingPreferenceKey` merge, with the later child winning. It
    is given as a pure `Merge` and as the in-place `reduce` on an
    accumulated value.
  - The fold over all children.
  - The `"\(file)_\(line)"` key, proved injective.
  - The guarded lookup that writes the size binding.
- **Lazy single initialisation** (`lazy_slot.dfy`, `object_edge.dfy`,
  `state_object.dfy`).
  - `ObjectEdge.wrappedValue` filling its `Box`.
  - `_StateObject.wrappedValue` and `update()` over the `state` and
    `observedObject` wrappers.
  - Across any series of reads and updates, the factory (or thunk) runs at
    most once, and every read returns the same object.
- **`onChange(each:action:)`** (`on_change.dfy`).
  - `TupleBox ==` with its pairwise `isEqual` closure, and `RepeatingBox ==`
    with the same early-exit scan (`ScanEqual`).
  - Both boxes make the action run exactly when some element of the pack
    changed.

The factory of `ObjectEdge` and the thunk of `_StateObject` are closures the
model cannot see. Each read is therefore given `built`: the object the
closure would return if that read called it. A ghost counter records how
many times the closure actually ran. Parameter packs are modelled as
sequences of one element type. Two packs of the same type have the same
length.

`rubberBand(100, 0, 0, 50)` is `50 * (1 - 1/2.1) = 550/21`, about 26.19,
as `HundredPastZero` proves.

## Model

| member | source | states |
|---|---|---|
| RubberBanding.Denominator | Sources/SwiftUISupport/Modifiers/RubberbandingModifier.swift:27 | the band's denominator is at least 1, and exactly 1 only at 0 |
| RubberBanding.Band | Sources/SwiftUISupport/Modifiers/RubberbandingModifier.swift:24-29 | for x >= 0 the band lies in [0, bandLength); it is 0 exactly at 0 and never exceeds 0.55 * x |
| RubberBanding.BandClosedForm | Sources/SwiftUISupport/Modifiers/RubberbandingModifier.swift:26-29 | the band equals 0.55 * x divided by the denominator |
| RubberBanding.BandIncreasing | Sources/SwiftUISupport/Modifiers/RubberbandingModifier.swift:26-29 | the band is strictly increasing in the excess |
| RubberBanding.RubberBand | Sources/SwiftUISupport/Modifiers/RubberbandingModifier.swift:11-38 | finite bounds give a finite result |
| RubberBanding.FreeZone | Sources/SwiftUISupport/Modifiers/RubberbandingModifier.swift:14-17 | inside [min, max], both ends included, the value is returned unchanged |
| RubberBanding.ClampToMin | Sources/SwiftUISupport/Modifiers/RubberbandingModifier.swift:19-22 | out of range with bandLength <= 0 the result is min, on either side of the range |
| RubberBanding.AboveRange | Sources/SwiftUISupport/Modifiers/RubberbandingModifier.swift:30-31 | above max the result is max + band(value - max); it lies strictly between max and max + bandLength, at most 0.55 times the excess past max |
| RubberBanding.BelowRange | Sources/SwiftUISupport/Modifiers/RubberbandingModifier.swift:33-35 | below min the result is min - band(min - value); it lies strictly between min - bandLength and min |
| RubberBanding.WithinBand | Sources/SwiftUISupport/Modifiers/RubberbandingModifier.swift:11-38 | with a band, the result always lies in (min - bandLength, max + bandLength) |
| RubberBanding.StrictlyIncreasing | Sources/SwiftUISupport/Modifiers/RubberbandingModifier.swift:11-38 | with a band, rubberBand is strictly increasing across all three zones |
| RubberBanding.MirrorSymmetric | Sources/SwiftUISupport/Modifiers/RubberbandingModifier.swift:11-38 | reflecting the value and the range reflects the result |
| RubberBanding.InfiniteBoundAbsorbs | Sources/SwiftUISupport/Modifiers/RubberbandingModifier.swift:30-35 | with a band, a value beyond an infinite bound gives that infinity |
| RubberBanding.HundredPastZero | Sources/SwiftUISupport/Modifiers/RubberbandingModifier.swift:11-38 | rubberBand(100, 0, 0, 50) is exactly 550/21 |
| RubberBanding.MapVelocity | Sources/SwiftUISupport/Modifiers/RubberbandingModifier.swift:94-102 | the mapped velocity times the remaining distance is the release velocity; it is undefined exactly when the offset is 0, and 0 for an infinite offset |
| RubberBanding.MapVelocityExample | Sources/SwiftUISupport/Modifiers/RubberbandingModifier.swift:99-102 | velocity 100 with offset -50 maps to 2 |
| RubberBanding.ReduceSliding | Sources/SwiftUISupport/Modifiers/RubberbandingModifier.swift:133-136 | the sliding preference's `reduce`: the next child's flag replaces the accumulated one; ReduceSlidingKeepsLast states the fold's result |
| RubberBanding.ReduceSlidingKeepsLast | Sources/SwiftUISupport/Modifiers/RubberbandingModifier.swift:131-136 | the sliding preference seen above several children is the last child's flag, or false when there are none |
| RubberBanding.Displacement | Sources/SwiftUISupport/Modifiers/RubberbandingModifier.swift:74-86 | one axis after a drag change lies in (-bandLength, bandLength); it is 0 exactly when there is no band or no translation |
| RubberBanding.RubberBandingModifier.constructor | Sources/SwiftUISupport/Modifiers/RubberbandingModifier.swift:48-61 | the band length is kept and the offset starts at zero |
| RubberBanding.RubberBandingModifier.IsSliding | Sources/SwiftUISupport/Modifiers/RubberbandingModifier.swift:119 | the published flag is set exactly when some axis of the offset is nonzero |
| RubberBanding.RubberBandingModifier.OnChanged | Sources/SwiftUISupport/Modifiers/RubberbandingModifier.swift:71-89 | each axis becomes rubberBand(translation, 0, 0, bandLength), inside (-bandLength, bandLength); the sliding flag (line 119) is set exactly when there is a band and a nonzero translation |
| RubberBanding.RubberBandingModifier.OnEnded | Sources/SwiftUISupport/Modifiers/RubberbandingModifier.swift:90-115 | the offset is reset to zero, so the view is not sliding; each spring has stiffness 200 and damping 50, and its axis's velocity is mapped by the offset before the reset |
| VelocityDragging.SpringParameter.Animation | Sources/SwiftUISupport/Modifiers/VelocityDraggingModifier.swift:108-130 | the interpolating spring built from the parameter's mass, stiffness and damping and one axis's initial velocity; OnEnded states how the two are used |
| VelocityDragging.Boundary.Apply | Sources/SwiftUISupport/Modifiers/VelocityDraggingModifier.swift:76-90 | one axis under its boundary: the translation itself inside [min, max], min outside it with no band, finite whenever both ends are |
| VelocityDragging.InfinityClampsToPlusInfinity | Sources/SwiftUISupport/Modifiers/VelocityDraggingModifier.swift:29-31 | Boundary.infinity as defined maps every translation to +infinity |
| VelocityDragging.UnboundedPassesThrough | Sources/SwiftUISupport/Modifiers/VelocityDraggingModifier.swift:29-31 | the corrected unbounded boundary passes every translation through unchanged |
| VelocityDragging.FiniteBoundaryBounds | Sources/SwiftUISupport/Modifiers/VelocityDraggingModifier.swift:76-90 | an axis under a finite boundary with a band stays finite, inside the widened free zone, and increasing in the translation |
| VelocityDragging.VelocityDraggingModifier.constructor | Sources/SwiftUISupport/Modifiers/VelocityDraggingModifier.swift:52-62 | it keeps the axis set, the boundaries and the spring parameter, and starts at the origin; the defaults are both axes, Boundary.infinity on both axes, and .hard = (1.0, 200, 20) |
| VelocityDragging.VelocityDraggingModifier.OnChanged | Sources/SwiftUISupport/Modifiers/VelocityDraggingModifier.swift:72-93 | width follows the horizontal boundary and height the vertical one, each only when its axis is in the set; an axis not in the set keeps its offset |
| VelocityDragging.VelocityDraggingModifier.OnEnded | Sources/SwiftUISupport/Modifiers/VelocityDraggingModifier.swift:94-144 | both axes reset to 0 whatever the axis set; both springs use springParameter's mass, stiffness and damping, each with its own axis's velocity divided by -offset |
| OnChangeWithPrevious.Initial | Sources/SwiftUISupport/OnChangeWithPrevious.swift:57 | the state init sets up: oldValue seeded with the observed value and no emission yet; UnchangedValueIsSilent and InitialEmittedOnce state what follows from it |
| OnChangeWithPrevious.Receive | Sources/SwiftUISupport/OnChangeWithPrevious.swift:62-72 | the action fires exactly on the emitsInitial first step or when the value differs from oldValue. The first emitsInitial step passes nil and leaves oldValue. A change passes (new, old) and makes new the oldValue. An equal value changes nothing. emitCount increments exactly on a fire |
| OnChangeWithPrevious.EmitCountCountsActions | Sources/SwiftUISupport/OnChangeWithPrevious.swift:62-72 | over any series of values, emitCount equals the number of action calls |
| OnChangeWithPrevious.ChangesAreChained | Sources/SwiftUISupport/OnChangeWithPrevious.swift:67-70 | past the initial emission, each call's old value is the previous call's new value and differs from its own new value; oldValue ends at the last value passed |
| OnChangeWithPrevious.UnchangedValueIsSilent | Sources/SwiftUISupport/OnChangeWithPrevious.swift:57-67 | without emitsInitial, receiving the observed value any number of times calls nothing and changes nothing |
| OnChangeWithPrevious.InitialEmittedOnce | Sources/SwiftUISupport/OnChangeWithPrevious.swift:57-71 | with emitsInitial, the first call is (first value, nil); the calls after it are chained from the observed value |
| OnChangeWithPrevious.ChangeModifier.constructor | Sources/SwiftUISupport/OnChangeWithPrevious.swift:45-58 | oldValue is seeded with the observed value and emitCount is 0 |
| OnChangeWithPrevious.ChangeModifier.OnReceive | Sources/SwiftUISupport/OnChangeWithPrevious.swift:62-72 | the in-place step is Receive on the state before it; the log of calls grows by the call made; emitCount stays equal to the number of calls |
| Sizing.Merge | Sources/SwiftUISupport/Extensions/View+Sizing.swift:10 | the merged keys are the union; a key in nextValue takes nextValue's entry; a key only in value keeps its entry |
| Sizing.StackedSizes.constructor | Sources/SwiftUISupport/Extensions/View+Sizing.swift:7 | accumulation starts from the empty map |
| Sizing.StackedSizes.Reduce | Sources/SwiftUISupport/Extensions/View+Sizing.swift:9-11 | the accumulated map becomes its merge with the next child's map |
| Sizing.ReduceAllKeys | Sources/SwiftUISupport/Extensions/View+Sizing.swift:9-11 | a key is in the merged preference exactly when some child published it |
| Sizing.ReduceAllLastWins | Sources/SwiftUISupport/Extensions/View+Sizing.swift:9-11 | the merged entry for a key is the last publishing child's entry |
| Sizing.MeasureKey | Sources/SwiftUISupport/Extensions/View+Sizing.swift:20 | the key is the file, then `_`, then the line's text, and its last `_` is the one after the file |
| Sizing.DecimalInjective | Sources/SwiftUISupport/Extensions/View+Sizing.swift:20 | different non-negative lines have different decimal text |
| Sizing.DescriptionInjective | Sources/SwiftUISupport/Extensions/View+Sizing.swift:20 | different lines have different text |
| Sizing.MeasureKeyInjective | Sources/SwiftUISupport/Extensions/View+Sizing.swift:20 | two "file_line" keys are equal only for the same file and line |
| Sizing.OnSizePreferenceChange | Sources/SwiftUISupport/Extensions/View+Sizing.swift:31-34 | the binding takes the key's entry when there is one, and is left alone otherwise |
| LazySlot.Read | Sources/SwiftUISupport/ObjectEdge.swift:11-18 | a read leaves the slot filled with the object it returns. A filled slot is kept and the factory does not run. An empty slot runs the factory once and returns exactly what it stored |
| LazySlot.ReadsAgree | Sources/SwiftUISupport/ObjectEdge.swift:11-18 | over any series of reads the factory runs at most once (once from an empty slot), and every read returns the same object |
| ObjectEdgeProperty.Box.constructor | Sources/SwiftUISupport/ObjectEdge.swift:26-28 | a new box is empty |
| ObjectEdgeProperty.ObjectEdge.constructor | Sources/SwiftUISupport/ObjectEdge.swift:22-24 | init leaves the box empty and does not run the factory |
| ObjectEdgeProperty.ObjectEdge.WrappedValue | Sources/SwiftUISupport/ObjectEdge.swift:11-18 | the in-place read is Read on the box; the factory has run at most once in all |
| StateObjectProperty.Wrapper.constructor | Sources/SwiftUISupport/Components/StateObject.swift:8-21 | a new wrapper holds no object |
| StateObjectProperty.ThunkRunsAtMostOnce | Sources/SwiftUISupport/Components/StateObject.swift:23-53 | over any interleaving of reads and updates the thunk runs at most once; once stored, the object never changes; observed is empty or the stored object |
| StateObjectProperty.UpdatePublishes | Sources/SwiftUISupport/Components/StateObject.swift:46-53 | after update(), state is filled and observedObject holds the identical object; a filled state is kept |
| StateObjectProperty.UpdateIdempotent | Sources/SwiftUISupport/Components/StateObject.swift:46-53 | a second update() changes neither slot and does not run the thunk |
| StateObjectProperty.StateObject.constructor | Sources/SwiftUISupport/Components/StateObject.swift:37-44 | init stores only the thunk; both wrappers start empty and distinct |
| StateObjectProperty.StateObject.WrappedValue | Sources/SwiftUISupport/Components/StateObject.swift:23-31 | returns the stored object, or stores and returns what the thunk built; it does not touch observedObject |
| StateObjectProperty.StateObject.Update | Sources/SwiftUISupport/Components/StateObject.swift:46-53 | runs the thunk only when state is empty; afterwards observedObject holds the same object as state |
| OnChange.PackEqualIsEquality | Sources/SwiftUISupport/Extensions/OnChange.swift:23-30 | pairwise agreement of two packs is equality of the packs |
| OnChange.ScanEqual | Sources/SwiftUISupport/Extensions/OnChange.swift:25-28 | the early-exit scan returns true exactly when every corresponding pair is equal, including for empty packs; false comes at the first unequal pair |
| OnChange.TupleBoxEquals | Sources/SwiftUISupport/Extensions/OnChange.swift:45-47 | TupleBox == applies the left box's isEqual; when that closure is value equality, boxes compare equal exactly when their values do |
| OnChange.PackBox | Sources/SwiftUISupport/Extensions/OnChange.swift:21-30 | the box holds the pack, and its isEqual closure holds exactly for equal packs, empty packs included |
| OnChange.PackBoxEquality | Sources/SwiftUISupport/Extensions/OnChange.swift:21-47 | two TupleBoxes with the pairwise isEqual closure compare equal exactly when the packs are equal |
| OnChange.RepeatingBoxEquals | Sources/SwiftUISupport/Extensions/OnChange.swift:65-70 | RepeatingBox == is true exactly when the packs are equal |
| OnChange.OnChangeEach | Sources/SwiftUISupport/Extensions/OnChange.swift:5-39 | on both iOS paths, the no-argument action runs exactly when some element of the pack changed |

## Left out

- Floating point: `CGFloat`/`Double` are reals.
  - NaN is not modelled. Neither is the final `return value` of
    `rubberBand` (RubberbandingModifier.swift:37), which only NaN reaches.
  - Infinite bounds are kept, but an infinite `value` or `bandLength` is not.
  - A division by a zero distance becomes `None`, not an IEEE infinity or
    NaN.
- Animations and gestures: `withAnimation`, `interactiveSpring`,
  `DragGesture`, `@GestureVelocity` and `updatingVelocity`.
  - The model keeps only the values passed to them: the release velocity is
    a parameter, and a spring is the record of its arguments.
  - `RubberBanding.RubberBandingModifier.OnEnded` uses the framework's
    default spring mass 1.0.
  - The `onSliding` handler call is out; the published flag is
    `IsSliding`.
- `TransactionModifiedContent` / `_onChange`: their meaning depends on the
  order in which the framework runs the handlers.
- The Combine re-subscription in `Wrapper.value`'s `didSet`, and
  `projectedValue`.
- The timer schedule, the UIKit bridges, layout and styling views, the demo
  app and the package manifest.
- `StateObjectProperty.StateObject.Update`: `!==` (object identity) is
  modelled by `!=` on the stored object.
- The framework's `onChange(of:)` is taken to call its closure exactly when
  the new box is not `==` to the previous one.
- The `isEqual` closure of `TupleBox` is a function value, so its loop is
  the predicate `PackEqual`. `ScanEqual` is the loop itself, proved equal to
  that predicate.
- Parameter packs are sequences of one element type. Packs of mixed
  element types are not modelled. Pack elements are values, not
  references.
- `OnChangeWithPrevious.ChangeModifier.OnReceive`: `emitCount` is unbounded.
  `Int` overflow after 2^63 emissions is not modelled.

## Findings

| source | as written | input that shows it | evidently intended | confidence | as-written member | corrected member |
|---|---|---|---|---|---|---|
| Sources/SwiftUISupport/Modifiers/VelocityDraggingModifier.swift:29-31 | `Boundary.infinity` is `min: +infinity, max: +infinity, bandLength: 0`, and it is the default boundary of both axes (line 54-55) | any drag translation, e.g. 0: no finite value is in `[+infinity, +infinity]` and there is no band, so `rubberBand` returns `min` and the offset becomes +infinity | `min: -infinity`, so that every translation lies in the free zone and passes through unchanged | not executed | VelocityDragging.InfinityClampsToPlusInfinity | VelocityDragging.UnboundedPassesThrough |
