/**
 * The lazy single initialisation shared by `ObjectEdge` and `_StateObject`:
 * an optional slot filled from a factory on the first read only.
 *
 * The factory is code outside the model, so a read is given `built`, the
 * object the factory returns if this read calls it; different reads may be
 * given different objects, as a factory building a fresh object each call
 * would produce.
 */
module LazySlot {

  import opened Wrappers

  /** The slot after one read, the object the read returned, and whether it ran the factory. */
  datatype Access<O> = Access(slot: Option<O>, result: O, factoryRan: bool)

  /**
   * One read: a filled slot returns its object without running the factory;
   * an empty one runs the factory, stores what it built and returns exactly
   * the stored object.
   */
  function Read<O>(slot: Option<O>, built: O): (a: Access<O>)
    ensures a.slot == Some(a.result)
    ensures a.factoryRan <==> slot.None?
    ensures slot.Some? ==> a.slot == slot
    ensures a.factoryRan ==> a.result == built
  {
    match slot
    case Some(o) => Access(slot, o, false)
    case None => Access(Some(built), built, true)
  }

  /** The slot after a series of reads, what each returned, and how often the factory ran. */
  datatype Reads<O> = Reads(slot: Option<O>, results: seq<O>, factoryRuns: nat)

  /** Reads `|builds|` times, read `i` being given `builds[i]`. */
  function ReadAll<O>(slot: Option<O>, builds: seq<O>): (r: Reads<O>)
    decreases |builds|
  {
    if builds == [] then Reads(slot, [], 0)
    else
      var a := Read(slot, builds[0]);
      var rest := ReadAll(a.slot, builds[1..]);
      Reads(rest.slot, [a.result] + rest.results, rest.factoryRuns + (if a.factoryRan then 1 else 0))
  }

  /**
   * Across any series of reads the factory runs at most once (exactly once
   * when the slot starts empty and there is a read), and every read returns
   * the same object: the one already stored, or the one the first read built.
   */
  lemma {:induction false} ReadsAgree<O>(slot: Option<O>, builds: seq<O>)
    ensures var r := ReadAll(slot, builds);
      && |r.results| == |builds|
      && r.factoryRuns == (if slot.None? && builds != [] then 1 else 0)
      && (builds != [] ==> r.slot.Some?)
      && forall i :: 0 <= i < |builds| ==> r.results[i] == (if slot.Some? then slot.value else builds[0])
    decreases |builds|
  {
    if builds != [] {
      var a := Read(slot, builds[0]);
      ReadsAgree(a.slot, builds[1..]);
      var r := ReadAll(slot, builds);
      var rest := ReadAll(a.slot, builds[1..]);
      forall i | 0 <= i < |builds|
        ensures r.results[i] == (if slot.Some? then slot.value else builds[0])
      {
        if i > 0 {
          assert r.results[i] == rest.results[i - 1];
        }
      }
    }
  }
}
