/**
 * `measureSize`: every measured view publishes `[key : size]` under
 * `SizeStackingPreferenceKey`; the preferences of sibling views are merged,
 * later ones winning, and each measuring view copies its own entry into its
 * size binding.
 */
module Sizing {

  import opened Geometry

  /** The preference value: measured sizes by key. */
  type SizeMap = map<string, Size>

  /** `SizeStackingPreferenceKey.defaultValue`. */
  const DefaultValue: SizeMap := map[]

  /**
   * `merge(_:uniquingKeysWith: { _, dic in dic })`: `nextValue` merged into
   * `value`, keeping `nextValue`'s entry where both have the key.
   */
  function Merge(value: SizeMap, nextValue: SizeMap): (r: SizeMap)
    ensures r.Keys == value.Keys + nextValue.Keys
    ensures forall k :: k in nextValue ==> r[k] == nextValue[k]
    ensures forall k :: k in value && k !in nextValue ==> r[k] == value[k]
  {
    value + nextValue
  }

  /** The preference value being accumulated, which `reduce` takes `inout`. */
  class StackedSizes {
    var value: SizeMap

    /** Accumulation starts from `defaultValue`. */
    constructor ()
      ensures value == DefaultValue
    {
      value := DefaultValue;
    }

    /** `SizeStackingPreferenceKey.reduce`: merges the next child's map into `value` in place. */
    method Reduce(nextValue: SizeMap)
      modifies this
      ensures value == Merge(old(value), nextValue)
    {
      value := value + nextValue;
    }
  }

  /** The preference value seen above `children`: `reduce` folded over them from the default. */
  function ReduceAll(children: seq<SizeMap>): (r: SizeMap)
  {
    if children == [] then DefaultValue
    else Merge(ReduceAll(children[..|children| - 1]), children[|children| - 1])
  }

  /** A key is in the merged preference exactly when some child published it. */
  lemma {:induction false} ReduceAllKeys(children: seq<SizeMap>, key: string)
    ensures key in ReduceAll(children) <==> exists i :: 0 <= i < |children| && key in children[i]
  {
    if children != [] {
      var init := children[..|children| - 1];
      ReduceAllKeys(init, key);
      if key in ReduceAll(init) {
        var i :| 0 <= i < |init| && key in init[i];
        assert key in children[i];
      }
      if i :| 0 <= i < |children| && key in children[i] {
        if i < |init| {
          assert key in init[i];
        }
      }
    }
  }

  /** The merged entry for a key is the one from the last child that published it. */
  lemma {:induction false} ReduceAllLastWins(children: seq<SizeMap>, key: string, i: nat)
    requires i < |children| && key in children[i]
    requires forall j :: i < j < |children| ==> key !in children[j]
    ensures key in ReduceAll(children) && ReduceAll(children)[key] == children[i][key]
  {
    var last := |children| - 1;
    if i < last {
      var init := children[..last];
      assert key in init[i];
      ReduceAllLastWins(init, key, i);
    }
  }

  /** `"\(n)"` for a natural number: its decimal digits. */
  function Decimal(n: nat): (s: string)
  {
    if n < 10 then [Digit(n)] else Decimal(n / 10) + [Digit(n % 10)]
  }

  function Digit(d: nat): (c: char)
    requires d < 10
  {
    "0123456789"[d]
  }

  /** `"\(line)"` for an `Int`. */
  function Description(line: int): (s: string)
  {
    if line < 0 then "-" + Decimal(-line) else Decimal(line)
  }

  /** The key `measureSize` measures under: the file and the line joined by `_`. */
  function MeasureKey(file: string, line: int): (k: string)
    ensures |k| > |file| + 1
    ensures k[..|file|] == file && k[|file| + 1..] == Description(line)
    ensures LastUnderscore(k) == |file|
  {
    SignShown(line);
    JoinIsLastUnderscore(file, Description(line));
    file + "_" + Description(line)
  }

  lemma {:induction false} DecimalShape(n: nat)
    ensures |Decimal(n)| >= 1
    ensures n < 10 <==> |Decimal(n)| == 1
    ensures forall i :: 0 <= i < |Decimal(n)| ==> '0' <= Decimal(n)[i] <= '9'
  {
    if n >= 10 {
      DecimalShape(n / 10);
    }
  }

  lemma {:induction false} DecimalInjective(m: nat, n: nat)
    requires Decimal(m) == Decimal(n)
    ensures m == n
  {
    DecimalShape(m);
    DecimalShape(n);
    if m >= 10 && n >= 10 {
      var dm, dn := Decimal(m), Decimal(n);
      assert dm[..|dm| - 1] == Decimal(m / 10);
      assert dn[..|dn| - 1] == Decimal(n / 10);
      DecimalInjective(m / 10, n / 10);
      assert Digit(m % 10) == dm[|dm| - 1] == dn[|dn| - 1] == Digit(n % 10);
    }
  }

  /** A description starts with `-` exactly for a negative line. */
  lemma SignShown(line: int)
    ensures |Description(line)| >= 1
    ensures Description(line)[0] == '-' <==> line < 0
    ensures forall i :: 0 <= i < |Description(line)| ==> Description(line)[i] != '_'
  {
    DecimalShape(if line < 0 then -line else line);
  }

  lemma DescriptionInjective(m: int, n: int)
    requires Description(m) == Description(n)
    ensures m == n
  {
    SignShown(m);
    SignShown(n);
    if m < 0 {
      assert Description(m)[1..] == Decimal(-m);
      assert Description(n)[1..] == Decimal(-n);
      DecimalInjective(-m, -n);
    } else {
      DecimalInjective(m, n);
    }
  }

  /** Index of the last `_` in `s`, or -1 when there is none. */
  function LastUnderscore(s: string): (i: int)
    ensures -1 <= i < |s|
  {
    if s == [] then -1
    else if s[|s| - 1] == '_' then |s| - 1
    else LastUnderscore(s[..|s| - 1])
  }

  /** The last `_` of `file + "_" + digits` is the one that joins them. */
  lemma {:induction false} JoinIsLastUnderscore(file: string, digits: string)
    requires forall i :: 0 <= i < |digits| ==> digits[i] != '_'
    ensures LastUnderscore(file + "_" + digits) == |file|
    decreases |digits|
  {
    var s := file + "_" + digits;
    if digits != [] {
      var shorter := digits[..|digits| - 1];
      assert s[..|s| - 1] == file + "_" + shorter;
      JoinIsLastUnderscore(file, shorter);
    }
  }

  /**
   * Two `measureSize` calls share a key only when they come from the same
   * file and line: the line's digits hold no `_`, so the last `_` of a key
   * separates the file from the line.
   */
  lemma MeasureKeyInjective(file1: string, line1: int, file2: string, line2: int)
    requires MeasureKey(file1, line1) == MeasureKey(file2, line2)
    ensures file1 == file2 && line1 == line2
  {
    var k := MeasureKey(file1, line1);
    SignShown(line1);
    SignShown(line2);
    JoinIsLastUnderscore(file1, Description(line1));
    JoinIsLastUnderscore(file2, Description(line2));
    assert |file1| == LastUnderscore(k) == |file2|;
    assert file1 == k[..|file1|] == file2;
    assert Description(line1) == k[|file1| + 1..] == Description(line2);
    DescriptionInjective(line1, line2);
  }

  /** The `Binding<CGSize>` a measurement writes to. */
  class SizeBinding {
    var wrappedValue: Size

    constructor (initial: Size)
      ensures wrappedValue == initial
    {
      wrappedValue := initial;
    }
  }

  /**
   * The `onPreferenceChange` handler of `_measureSize`: copies the entry for
   * `key` into the binding, and leaves the binding alone when there is none.
   */
  method OnSizePreferenceChange(key: string, sizes: SizeMap, size: SizeBinding)
    modifies size
    ensures key in sizes ==> size.wrappedValue == sizes[key]
    ensures key !in sizes ==> size.wrappedValue == old(size.wrappedValue)
  {
    if key !in sizes {
      return;
    }
    size.wrappedValue := sizes[key];
  }
}
