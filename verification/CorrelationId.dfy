/**
 Correlation IDs: a wrapping 32-bit counter bumped by every thread, with one
 reserved value skipped.
 */
module CorrelationId {

  const I32_MIN: int := -0x8000_0000
  const I32_MAX: int := 0x7FFF_FFFF

  /** Reserved for requests that expect no response. */
  const NO_RESPONSE: int := I32_MIN

  /** How many IDs there are. */
  const CYCLE: nat := 0xFFFF_FFFF

  /** `fetch_add(1)` on an `i32`. */
  function Bump(c: int): int {
    if c == I32_MAX then I32_MIN else c + 1
  }

  class Generator {
    var counter: int

    ghost predicate Valid()
      reads this
    {
      I32_MIN <= counter <= I32_MAX
    }

    constructor ()
      ensures Valid() && counter == 1
    {
      counter := 1;
    }

    /** One call with no other thread in between: the counter's value, or the one after the reserved value. */
    method Next() returns (id: int)
      requires Valid()
      modifies this
      ensures Valid() && I32_MIN < id <= I32_MAX && id != NO_RESPONSE
      ensures id == if old(counter) == NO_RESPONSE then Bump(old(counter)) else old(counter)
      ensures counter == Bump(id)
    {
      while true
        invariant Valid()
        invariant counter == old(counter) || (old(counter) == NO_RESPONSE && counter == Bump(NO_RESPONSE))
        decreases if counter == NO_RESPONSE then 1 else 0
      {
        id := counter;
        counter := Bump(counter);
        if id != NO_RESPONSE {
          return;
        }
      }
    }
  }

  // ---- any number of threads ----

  /** The IDs returned so far, in the order of the atomic increments, and the threads about to retry. */
  datatype System = System(counter: int, retrying: set<nat>, issued: seq<int>)

  const INITIAL := System(1, {}, [])

  /** Thread `t` increments the counter and returns the old value, or retries on the reserved one. */
  function Step(s: System, t: nat): System {
    if s.counter == NO_RESPONSE
    then System(Bump(s.counter), s.retrying + {t}, s.issued)
    else System(Bump(s.counter), s.retrying - {t}, s.issued + [s.counter])
  }

  /** The state after the increments of `threads`, in that order. */
  function Run(threads: seq<nat>): System {
    if threads == [] then INITIAL else Step(Run(threads[..|threads| - 1]), threads[|threads| - 1])
  }

  /** The ID at position `k` of the cycle: up from 1, over the top to the value above the reserved one, up to 0. */
  function IdAt(k: nat): int {
    var j := k % CYCLE;
    if j + 1 <= I32_MAX then j + 1 else j + 2 - 0x1_0000_0000
  }

  lemma {:induction false} IssuedInOrder(threads: seq<nat>)
    ensures var s := Run(threads);
            && (forall k :: 0 <= k < |s.issued| ==> s.issued[k] == IdAt(k))
            && I32_MIN <= s.counter <= I32_MAX
            && (s.counter == IdAt(|s.issued|) || (s.counter == NO_RESPONSE && |s.issued| % CYCLE == I32_MAX))
  {
    if threads != [] {
      IssuedInOrder(threads[..|threads| - 1]);
    }
  }

  /** Fewer than a full cycle apart, two IDs differ. */
  lemma CycleIsInjective(i: nat, j: nat)
    requires i < j < i + CYCLE
    ensures IdAt(i) != IdAt(j)
  {
  }

  /**
   Whatever the interleaving: no ID is the reserved one, any 2^32 - 1
   consecutive ones are pairwise distinct, and the next one after that repeats.
   */
  lemma IdsAreDistinct(threads: seq<nat>, i: nat, j: nat)
    requires i < j < |Run(threads).issued|
    ensures Run(threads).issued[i] != NO_RESPONSE
    ensures j - i < CYCLE ==> Run(threads).issued[i] != Run(threads).issued[j]
    ensures j - i == CYCLE ==> Run(threads).issued[i] == Run(threads).issued[j]
  {
    IssuedInOrder(threads);
    if j - i < CYCLE {
      CycleIsInjective(i, j);
    } else if j - i == CYCLE {
      assert (i + CYCLE) % CYCLE == i % CYCLE;
    }
  }
}
