/** The `useIntersectionObserver` hook: the latest intersection flag, a
    latch that records the first time the element came into view, and the
    value the hook reports (the latch when `triggerOnce`, which is the
    default, the latest flag otherwise). The browser's observer is
    replaced by the batches of entries it delivers; only a batch's first
    entry is read. */
module IntersectionObserver {

  datatype Flags = Flags(isIntersecting: bool, hasIntersected: bool)

  const Initial: Flags := Flags(false, false)

  /** The observer callback on one batch of entries. */
  function Observe(f: Flags, entries: seq<bool>): (r: Flags)
    ensures entries == [] ==> r == f
    ensures entries != [] ==> r.isIntersecting == entries[0]
    ensures r.hasIntersected <==> f.hasIntersected || (entries != [] && entries[0])
  {
    if entries == [] then f
    else Flags(entries[0], f.hasIntersected || entries[0])
  }

  /** What the hook returns as `isIntersecting`. */
  function Reported(f: Flags, triggerOnce: bool): bool {
    if triggerOnce then f.hasIntersected else f.isIntersecting
  }

  /** The flags after a run of callbacks. */
  function ObserveAll(f: Flags, batches: seq<seq<bool>>): Flags
    decreases |batches|
  {
    if batches == [] then f else ObserveAll(Observe(f, batches[0]), batches[1..])
  }

  /** Some batch's first entry was intersecting. */
  ghost predicate EverSeen(batches: seq<seq<bool>>) {
    exists i :: 0 <= i < |batches| && batches[i] != [] && batches[i][0]
  }

  /** The latch is set exactly when it was already set or the element was
      seen in some batch; once set it is never cleared. */
  lemma {:induction false} LatchIff(f: Flags, batches: seq<seq<bool>>)
    ensures ObserveAll(f, batches).hasIntersected <==> f.hasIntersected || EverSeen(batches)
    decreases |batches|
  {
    if batches != [] {
      LatchIff(Observe(f, batches[0]), batches[1..]);
      if EverSeen(batches[1..]) {
        var i :| 0 <= i < |batches[1..]| && batches[1..][i] != [] && batches[1..][i][0];
        assert batches[i + 1] == batches[1..][i];
      }
      if EverSeen(batches) {
        var i :| 0 <= i < |batches| && batches[i] != [] && batches[i][0];
        if i > 0 {
          assert batches[1..][i - 1] == batches[i];
        }
      }
    }
  }

  /** Nothing is reported before the first observation, and with
      `triggerOnce` the element is reported from its first sighting on,
      even after it leaves view. */
  lemma TriggerOnceReports(batches: seq<seq<bool>>)
    ensures !Reported(Initial, true) && !Reported(Initial, false)
    ensures Reported(ObserveAll(Initial, batches), true) <==> EverSeen(batches)
  {
    LatchIff(Initial, batches);
  }

  /** The first entry of the last non-empty batch, or `current` when every
      batch is empty. */
  function LatestEntry(current: bool, batches: seq<seq<bool>>): bool
    decreases |batches|
  {
    if batches == [] then current
    else LatestEntry(if batches[0] == [] then current else batches[0][0], batches[1..])
  }

  /** Without `triggerOnce` the hook reports the latest delivered entry. */
  lemma {:induction false} LatestReported(f: Flags, batches: seq<seq<bool>>)
    ensures Reported(ObserveAll(f, batches), false) == LatestEntry(f.isIntersecting, batches)
    decreases |batches|
  {
    if batches != [] {
      LatestReported(Observe(f, batches[0]), batches[1..]);
    }
  }

  /** An empty batch followed by more batches is the same as those. */
  lemma EmptyBatchIgnored(f: Flags, batches: seq<seq<bool>>)
    ensures ObserveAll(f, [[]] + batches) == ObserveAll(f, batches)
  {
    assert ([[]] + batches)[1..] == batches;
  }

  /** The hook's state for one observed element. */
  class Observer {
    const triggerOnce: bool
    var isIntersecting: bool
    var hasIntersected: bool

    function State(): Flags
      reads this
    {
      Flags(isIntersecting, hasIntersected)
    }

    constructor(triggerOnce: bool)
      ensures this.triggerOnce == triggerOnce && State() == Initial
    {
      this.triggerOnce := triggerOnce;
      isIntersecting := false;
      hasIntersected := false;
    }

    /** The callback handed to `IntersectionObserver`. */
    method OnEntries(entries: seq<bool>)
      modifies this
      ensures State() == Observe(old(State()), entries)
    {
      if |entries| > 0 {
        var entry := entries[0];
        isIntersecting := entry;
        if entry && !hasIntersected {
          hasIntersected := true;
        }
      }
    }

    /** The value the hook returns. */
    function ShouldAnimate(): (r: bool)
      reads this
      ensures r == Reported(State(), triggerOnce)
    {
      if triggerOnce then hasIntersected else isIntersecting
    }
  }
}
